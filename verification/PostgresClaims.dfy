/** What every interleaving of the PostgreSQL store's transactions guarantees. */
module PostgresClaims {
  import opened Prelude
  import opened Domain
  import opened Lifecycle
  import opened Scopes
  import opened Events
  import opened Evidence
  import opened Bookkeeping
  import opened StoreRuns
  import opened StoreClaims
  import opened VelocityRuns
  import opened Postgres
  import opened PostgresLocks
  import opened PostgresData
  import opened PostgresRefines
  import MemoryStores

  // ----- evidence and single use -----

  /** Every chain verifies, holds at most `DENIAL_CAP` refusals, and adds up to the record. */
  lemma ChainsVerify(h: string -> int, schedule: seq<Action>, c: ContextId)
    ensures var db := Exec(h, schedule).db;
            var chain := ChainOf(db.events, c);
            && Linked(c, chain) && Denials(chain) <= DENIAL_CAP
            && Get(db.books.records, c) == RecordFrom(chain)
            && (States(chain) <= DELIVERY || States(chain) <= FAILURE || States(chain) <= LAPSE)
  {
    hide Exec, LocksOk, AllKnown, Linked, RecordFrom, Ledgered, TimesKept, WellFormed, Kept;
    EveryScheduleOk(h, schedule);
    assert ContextFine(Exec(h, schedule).db, c);
    PathShapes(States(ChainOf(Exec(h, schedule).db.events, c)));
  }

  /** No two committed payments share a rail's nonce, and no context is authorized twice. */
  lemma NothingSpentTwice(h: string -> int, schedule: seq<Action>)
    ensures PaymentsDistinct(Exec(h, schedule).db.events)
    ensures AuthorizationsDistinct(Exec(h, schedule).db.events)
  {
    hide Exec, LocksOk, AllKnown, ContextFine, TimesKept;
    EveryScheduleOk(h, schedule);
  }

  // ----- what one action commits -----

  /** The tables change only when a transaction commits. */
  lemma ActTables(h: string -> int, s: Pg, a: Action)
    requires AllFit(s)
    ensures var s2 := Act(h, s, a);
            if a.Go? && a.tid in s.txs && s.txs[a.tid].pc.Write? then s2.db == WriteDb(s.db, s.txs[a.tid])
            else if a.Go? && a.tid in s.txs && s.txs[a.tid].pc.WriteRevocation? then
              s2.db == RevokeDb(s.db, s.txs[a.tid].job.mandate)
            else s2.db == s.db.(counter := s2.db.counter)
  {
    hide MoveOf, WriteDb, RevokeDb, UnlockAll, Fits;
    if a.Go? && a.tid in s.txs {
      var tx := s.txs[a.tid];
      FitsJobs(tx);
      MoveKeepsTables(h, s.db, s.locks, a.tid, tx);
      if tx.pc.Write? || tx.pc.WriteRevocation? {
        WriteEnds(h, s.db, s.locks, a.tid, tx);
      }
    }
  }

  // ----- revocation -----

  lemma ActRevoked(h: string -> int, s: Pg, a: Action, m: MandateId)
    requires AllFit(s) && PgOk(h, s) && m in s.db.books.revoked
    ensures m in Act(h, s, a).db.books.revoked
    ensures TimesUnder(Act(h, s, a).db.events, m) == TimesUnder(s.db.events, m)
  {
    hide Act, LocksOk, DbOk, TimesUnder, RecordKnown, VelocityKnown, NonceKnown, NumberKnown, TipKnown, RefusalsKnown;
    ActTables(h, s, a);
    if a.Go? && a.tid in s.txs && s.txs[a.tid].pc.Write? {
      TimesUnderSnoc(s.db.events, EventOf(s.txs[a.tid]), m);
    }
  }

  /** Once a revocation has committed, no authorization under the mandate ever commits,
      wherever the transactions then in flight had got to. */
  lemma {:induction false} RevokedForGood(h: string -> int, before: seq<Action>, after: seq<Action>, m: MandateId)
    requires m in Exec(h, before).db.books.revoked
    ensures m in Exec(h, before + after).db.books.revoked
    ensures TimesUnder(Exec(h, before + after).db.events, m) == TimesUnder(Exec(h, before).db.events, m)
    decreases |after|
  {
    hide Exec, Act, PgOk, TimesUnder;
    if after == [] {
      assert before + after == before;
    } else {
      RevokedForGood(h, before, DropLast(after), m);
      var so := before + DropLast(after);
      assert before + after == so + [Last(after)];
      EveryScheduleOk(h, so);
      ExecSnoc(h, so, Last(after));
      ActRevoked(h, Exec(h, so), Last(after), m);
    }
  }

  // ----- rate limits -----

  predicate JobCarriesVelocity(a: Action, m: MandateId, v: Velocity) {
    a.Open? && a.job.AppendJob? && a.job.body.Authorized? && a.job.body.mandate.body.id == m ==>
      a.job.body.mandate.body.scope.velocity == Some(v)
  }

  ghost predicate CarryVelocity(s: Pg, m: MandateId, v: Velocity) {
    forall t :: t in s.txs ==> JobCarriesVelocity(Open(t, s.txs[t].job), m, v)
  }

  /** A transaction keeps its job. */
  lemma ActJobs(h: string -> int, s: Pg, a: Action, t: nat)
    requires AllFit(s) && t in Act(h, s, a).txs
    ensures if t in s.txs then Act(h, s, a).txs[t].job == s.txs[t].job
            else a.Open? && a.tid == t && Act(h, s, a).txs[t].job == a.job
  {
    hide MoveOf, UnlockAll, Fits;
    if a.Go? && a.tid in s.txs {
      MoveJob(h, s.db, s.locks, a.tid, s.txs[a.tid]);
    }
  }

  lemma ActCarriesVelocity(h: string -> int, s: Pg, a: Action, m: MandateId, v: Velocity)
    requires AllFit(s) && CarryVelocity(s, m, v) && JobCarriesVelocity(a, m, v)
    ensures CarryVelocity(Act(h, s, a), m, v)
  {
    hide Act, Fits;
    forall t | t in Act(h, s, a).txs
      ensures JobCarriesVelocity(Open(t, Act(h, s, a).txs[t].job), m, v)
    {
      ActJobs(h, s, a, t);
    }
  }

  lemma ActRate(h: string -> int, s: Pg, a: Action, m: MandateId, v: Velocity)
    requires AllFit(s) && PgOk(h, s) && CarryVelocity(s, m, v) && RateHolds(TimesUnder(s.db.events, m), v)
    ensures RateHolds(TimesUnder(Act(h, s, a).db.events, m), v)
  {
    hide Act, LocksOk, TimesUnder, RateHolds, RecordKnown, NonceKnown, NumberKnown, TipKnown, RefusalsKnown,
      ContextFine, Ledgered, CountSince;
    ActTables(h, s, a);
    if a.Go? && a.tid in s.txs && s.txs[a.tid].pc.Write? {
      var tx := s.txs[a.tid];
      TimesUnderSnoc(s.db.events, EventOf(tx), m);
      if Under(EventOf(tx), m) {
        assert JobCarriesVelocity(Open(a.tid, tx.job), m, v);
        AdmittedWithinRate(s.db.books, m, v, tx.job.at);
        assert TimesOf(s.db.books, m) == TimesUnder(s.db.events, m);
        RateSnoc(TimesUnder(s.db.events, m), v, tx.job.at);
      }
    }
  }

  /** The rate limit holds of what commits, however the authorizations race. */
  lemma {:induction false} RateLimit(h: string -> int, schedule: seq<Action>, m: MandateId, v: Velocity)
    requires forall i :: 0 <= i < |schedule| ==> JobCarriesVelocity(schedule[i], m, v)
    ensures CarryVelocity(Exec(h, schedule), m, v)
    ensures RateHolds(TimesUnder(Exec(h, schedule).db.events, m), v)
  {
    hide Act, PgOk, RateHolds, JobCarriesVelocity;
    if schedule == [] {
      NoTimes(v);
    } else {
      var front := DropLast(schedule);
      RateLimit(h, front, m, v);
      EveryScheduleOk(h, front);
      ActCarriesVelocity(h, Exec(h, front), Last(schedule), m, v);
      ActRate(h, Exec(h, front), Last(schedule), m, v);
    }
  }

  lemma NoTimes(v: Velocity)
    ensures RateHolds([], v)
  {
  }

  // ----- tailing the log -----

  /** Numbers become visible in order: a transaction that has drawn one and is still open
      drew a higher one than every event already committed. */
  lemma NumbersVisibleInOrder(h: string -> int, schedule: seq<Action>, t: nat, i: nat)
    requires var s := Exec(h, schedule); t in s.txs && Past(s.txs[t], 7) && i < |s.db.events|
    ensures var s := Exec(h, schedule); s.db.events[i].seqNo < s.txs[t].seqNo <= s.db.counter
  {
    hide Exec, LocksOk, ClaimOk, ContextFine, Ledgered, TimesKept, RecordKnown, RefusalsKnown, RevocationKnown,
      VelocityKnown, NonceKnown, TipKnown;
    EveryScheduleOk(h, schedule);
    var events := Exec(h, schedule).db.events;
    assert i < |events| - 1 ==> events[i].seqNo < events[|events| - 1].seqNo;
  }

  /** A reader of the log polls between transactions' statements. */
  datatype Look = Do(action: Action) | Poll(limit: nat)

  /** What a reader has been given, and the number it asks after next. */
  datatype Reader = Reader(seen: seq<Event>, after: nat)

  function Actions(looks: seq<Look>): seq<Action> {
    if looks == [] then []
    else Actions(DropLast(looks)) + if Last(looks).Do? then [Last(looks).action] else []
  }

  /** `events_after` on the committed log, and the reader moving past what it got. */
  function Polled(r: Reader, events: seq<Event>, limit: nat): Reader {
    var page := MemoryStores.FirstOf(MemoryStores.After(events, r.after), limit);
    Reader(r.seen + page, if page == [] then r.after else Last(page).seqNo)
  }

  function Reading(h: string -> int, looks: seq<Look>): Reader {
    if looks == [] then Reader([], 0)
    else
      var r := Reading(h, DropLast(looks));
      if Last(looks).Do? then r else Polled(r, Exec(h, Actions(DropLast(looks))).db.events, Last(looks).limit)
  }

  /** In an ascending log, what comes after an event's number is what comes after the event. */
  lemma {:induction false} AfterIsRest(events: seq<Event>, n: nat)
    requires Ascending(events) && n <= |events|
    ensures MemoryStores.After(events, TipSeq(events[..n])) == events[n..]
  {
    hide MemoryStores.After, Ascending;
    if n < |events| {
      var front := DropLast(events);
      assert Ascending(front) && TipSeq(events[..n]) < Last(events).seqNo by { Ascends(events, n); }
      AfterIsRest(front, n);
      assert front[..n] == events[..n] && events == front + [Last(events)];
      MemoryStores.AfterSnoc(front, Last(events), TipSeq(events[..n]));
    } else {
      assert events[..n] == events;
      NumbersUpToTip(events);
      NoneAfter(events, TipSeq(events));
    }
  }

  lemma Ascends(events: seq<Event>, n: nat)
    requires Ascending(events) && n < |events|
    ensures Ascending(DropLast(events)) && TipSeq(events[..n]) < Last(events).seqNo
  {
  }

  lemma NumbersUpToTip(events: seq<Event>)
    requires Ascending(events)
    ensures forall i :: 0 <= i < |events| ==> events[i].seqNo <= TipSeq(events)
  {
  }

  lemma {:induction false} NoneAfter(events: seq<Event>, after: nat)
    requires forall i :: 0 <= i < |events| ==> events[i].seqNo <= after
    ensures MemoryStores.After(events, after) == []
  {
    if events != [] {
      NoneAfter(DropLast(events), after);
    }
  }

  lemma PollReadsOn(r: Reader, events: seq<Event>, limit: nat)
    requires Ascending(events) && r.seen <= events && r.after == TipSeq(r.seen)
    ensures var r2 := Polled(r, events, limit);
            && r2.seen <= events && r2.after == TipSeq(r2.seen)
            && |r2.seen| == if |r.seen| + limit <= |events| then |r.seen| + limit else |events|
  {
    hide Ascending, MemoryStores.After;
    var n := |r.seen|;
    assert events[..n] == r.seen;
    AfterIsRest(events, n);
    var page := MemoryStores.FirstOf(events[n..], limit);
    assert page == events[n..n + |page|];
    assert r.seen + page == events[..n + |page|];
  }

  /** Committing only extends the log. */
  lemma ActExtends(h: string -> int, s: Pg, a: Action)
    requires AllFit(s)
    ensures s.db.events <= Act(h, s, a).db.events
  {
    hide Act, Fits;
    ActTables(h, s, a);
  }

  /** A reader that tails the log by number never misses an event: at any moment, what it
      has been given is exactly the log's first events, with no gap and no repeat, although
      numbers are drawn before commits and rollbacks leave holes in them. */
  lemma {:induction false} TailNeverSkips(h: string -> int, looks: seq<Look>)
    ensures var r, events := Reading(h, looks), Exec(h, Actions(looks)).db.events;
            r.seen <= events && r.after == TipSeq(r.seen) && Ascending(events)
  {
    hide Exec, Act, LocksOk, AllKnown, ContextFine, Ledgered, TimesKept, Ascending, Polled;
    EveryScheduleOk(h, Actions(looks));
    if looks != [] {
      var front := DropLast(looks);
      TailNeverSkips(h, front);
      var events := Exec(h, Actions(front)).db.events;
      match Last(looks)
      case Do(a) =>
        ExecSnoc(h, Actions(front), a);
        ActExtends(h, Exec(h, Actions(front)), a);
      case Poll(limit) =>
        PollReadsOn(Reading(h, front), events, limit);
        assert Actions(looks) == Actions(front);
    }
  }

  /** And it catches up: a poll with room for what is left returns all of it. */
  lemma TailCatchesUp(h: string -> int, looks: seq<Look>, limit: nat)
    ensures var r, r2 := Reading(h, looks), Reading(h, looks + [Poll(limit)]);
            var events := Exec(h, Actions(looks)).db.events;
            |r2.seen| == if |r.seen| + limit <= |events| then |r.seen| + limit else |events|
  {
    hide Exec, Ascending, Polled;
    TailNeverSkips(h, looks);
    SnocParts(looks, Poll(limit));
    PollReadsOn(Reading(h, looks), Exec(h, Actions(looks)).db.events, limit);
  }

  // ----- budgets -----

  lemma {:induction false} RunSplit(w: World, a: seq<Op>, b: seq<Op>)
    ensures Run(w, a + b) == Run(Run(w, a), b)
  {
    if b == [] {
      assert a + b == a;
    } else {
      RunSplit(w, a, DropLast(b));
      assert DropLast(a + b) == a + DropLast(b) && Last(a + b) == Last(b);
    }
  }

  lemma StartPays()
    ensures PayOk(FRESH, START)
  {
  }

  /** Refinement, for every schedule of non-negative amounts: the in-memory store, given the
      committed operations in commit order, holds the same records, nonces, authorization
      times, revocations and log contents, and reservations that are no larger. */
  lemma {:induction false} EveryScheduleRefines(h: string -> int, schedule: seq<Action>)
    requires forall i :: 0 <= i < |schedule| ==> PayableAction(schedule[i])
    ensures PayOk(Exec(h, schedule), Run(START, Commits(h, schedule)))
  {
    hide PgOk, PayOk, Act, PayableAction, Run, OpsOf;
    if schedule == [] {
      StartPays();
      assert Run(START, []) == START by { RunNothing(START); }
    } else {
      var front, a := DropLast(schedule), Last(schedule);
      EveryScheduleRefines(h, front);
      EveryScheduleOk(h, front);
      ActPays(h, Exec(h, front), Run(START, Commits(h, front)), a);
      RunSplit(START, Commits(h, front), OpsOf(Exec(h, front), a));
    }
  }

  lemma RunNothing(w: World)
    ensures Run(w, []) == w
  {
  }
}
