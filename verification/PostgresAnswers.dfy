/** Exactly how the PostgreSQL store answers: whatever a transaction is told, is true of the
    committed tables at the step that ends it, and a transaction that runs alone is told what
    the in-memory store, on those tables, would tell it. */
module PostgresAnswers {
  import opened Prelude
  import opened Domain
  import opened Lifecycle
  import opened Events
  import opened Bookkeeping
  import opened StoreRuns
  import opened StoreClaims
  import opened AppendExact
  import opened Postgres
  import opened PostgresLocks
  import opened PostgresData
  import opened PostgresRefines
  import opened PostgresClaims
  import opened PostgresBudgets

  /** The committed tables and log, as a store. */
  function StoreOf(db: Db): Store {
    Store(db.books, db.events, db.counter)
  }

  /** An answer, as the in-memory store would put it. */
  predicate SaysAs(answer: Answer, r: Result<AppendOutcome, StoreError>) {
    match answer
    case Committed => IsAppended(r)
    case Refused(outcome) => r == Ok(outcome) && !outcome.Appended?
    case Failed(e) => r == Err(e)
    case RolledBack => false
  }

  /** What `answer` means of the committed tables `db`. */
  ghost predicate TrueOf(db: Db, job: Job, answer: Answer)
    requires job.AppendJob?
  {
    exists r :: SaysAs(answer, r) && Means(StoreOf(db), job.ctx, job.at, job.body, r)
  }

  lemma RowsHeld(db: Db, mem: Books, id: MandateId)
    requires SameTables(db.books, mem) && Solvent(mem)
    ensures Held(db.books, id) >= 0
  {
    hide Solvent;
    if id in mem.reserved {
      RowsNonNegative(mem, id);
    }
  }

  // ----- each ending statement -----

  lemma RecordRefused(db: Db, locks: Locks, tx: Tx)
    requires Fits(tx) && tx.pc.ReadRecord? && MoveReadRecord(db, locks, tx).End?
    ensures TrueOf(db, tx.job, MoveReadRecord(db, locks, tx).answer)
  {
    hide CanTransition, ChainOf, Denials, RateFull, Unaddable, Incomparable, OverCap;
    var e := MoveReadRecord(db, locks, tx).answer.error;
    assert SaysAs(Failed(e), Err(e)) && Means(StoreOf(db), tx.job.ctx, tx.job.at, tx.job.body, Err(e));
  }

  lemma DecisionRefused(db: Db, locks: Locks, mem: Books, tx: Tx)
    requires Fits(tx) && (tx.pc.ReadRevoked? || tx.pc.ReadVelocity? || tx.pc.ReadReserved?)
    requires MoveDecide(db, locks, tx).End? && SameTables(db.books, mem) && Solvent(mem)
    requires RecordKnown(db.books, tx) && RevocationKnown(db.books, tx) && VelocityKnown(db.books, tx)
    ensures TrueOf(db, tx.job, MoveDecide(db, locks, tx).answer)
  {
    hide SameTables, Solvent, LegalStep, VelocityRefusal, DecideBudget, RateFull, Unaddable, Incomparable, OverCap,
      ClippedTo32, ChainOf, Denials, ReservedOr;
    var body := tx.job.body;
    RowsHeld(db, mem, body.mandate.body.id);
    VelocityExactly(db.books, body.mandate, tx.job.at);
    BudgetExactly(db.books, tx.job.ctx, body.mandate, body.cart);
    match MoveDecide(db, locks, tx).answer
    case Refused(outcome) =>
      assert SaysAs(Refused(outcome), Ok(outcome)) && Means(StoreOf(db), tx.job.ctx, tx.job.at, body, Ok(outcome));
    case Failed(e) =>
      assert SaysAs(Failed(e), Err(e)) && Means(StoreOf(db), tx.job.ctx, tx.job.at, body, Err(e));
  }

  lemma NonceRefused(db: Db, locks: Locks, t: nat, tx: Tx)
    requires Fits(tx) && (tx.pc.ClaimNonce? || tx.pc.ReadOwner?) && MoveNonce(db, locks, t, tx).End?
    requires RecordKnown(db.books, tx) && NonceKnown(db.books, tx)
    ensures TrueOf(db, tx.job, MoveNonce(db, locks, t, tx).answer)
  {
    hide LegalStep, ChainOf, Denials;
    var r: Result<AppendOutcome, StoreError> := Ok(AppendOutcome.NonceAlreadyUsed);
    assert SaysAs(Refused(AppendOutcome.NonceAlreadyUsed), r)
      && Means(StoreOf(db), tx.job.ctx, tx.job.at, tx.job.body, r);
  }

  lemma CountRefused(db: Db, tx: Tx)
    requires Fits(tx) && tx.pc.CountRefusals? && Denials(ChainOf(db.events, tx.job.ctx)) >= DENIAL_CAP
    ensures TrueOf(db, tx.job, Refused(DenialsCapped))
  {
    hide LegalStep, ChainOf, Denials;
    var r: Result<AppendOutcome, StoreError> := Ok(DenialsCapped);
    assert SaysAs(Refused(DenialsCapped), r) && Means(StoreOf(db), tx.job.ctx, tx.job.at, tx.job.body, r);
  }

  lemma CommitClear(db: Db, mem: Books, tx: Tx)
    requires tx.pc.Write? && Fits(tx) && Payable(tx.job)
    requires TxKnown(db, tx) && BudgetKnown(db.books, tx) && SameTables(db.books, mem) && Solvent(mem)
    ensures Clear(StoreOf(db), tx.job.ctx, tx.job.at, tx.job.body)
  {
    hide SameTables, Solvent, LegalStep, VelocityRefusal, RateFull, ChainOf, Denials, NumberKnown, TipKnown;
    if tx.job.body.Authorized? {
      VelocityExactly(db.books, tx.job.body.mandate, tx.job.at);
      RowsHeld(db, mem, tx.job.body.mandate.body.id);
    }
  }

  lemma CommitTrue(db: Db, mem: Books, tx: Tx)
    requires tx.pc.Write? && Fits(tx) && Payable(tx.job)
    requires TxKnown(db, tx) && BudgetKnown(db.books, tx) && SameTables(db.books, mem) && Solvent(mem)
    ensures TrueOf(db, tx.job, Committed)
  {
    hide TxKnown, BudgetKnown, SameTables, Solvent, Clear;
    CommitClear(db, mem, tx);
    var r: Result<AppendOutcome, StoreError> := Ok(Appended(EventOf(tx)));
    assert SaysAs(Committed, r) && Means(StoreOf(db), tx.job.ctx, tx.job.at, tx.job.body, r);
  }

  /** Whatever statement ends it, a transaction is answered truly. */
  lemma EndTrue(h: string -> int, db: Db, locks: Locks, mem: Books, t: nat, tx: Tx)
    requires Fits(tx) && tx.job.AppendJob? && Payable(tx.job) && MoveOf(h, db, locks, t, tx).End?
    requires TxKnown(db, tx) && BudgetKnown(db.books, tx) && SameTables(db.books, mem) && Solvent(mem)
    ensures TrueOf(db, tx.job, MoveOf(h, db, locks, t, tx).answer)
  {
    hide SameTables, Solvent, BudgetKnown, RecordKnown, NonceKnown, VelocityKnown, RevocationKnown, RefusalsKnown,
      NumberKnown, TipKnown, TrueOf, MoveReadRecord, MoveDecide, MoveNonce, Denials, ChainOf, WriteDb, Payable;
    match tx.pc
    case ReadRecord => RecordRefused(db, locks, tx);
    case ReadRevoked => DecisionRefused(db, locks, mem, tx);
    case ReadVelocity => DecisionRefused(db, locks, mem, tx);
    case ReadReserved => DecisionRefused(db, locks, mem, tx);
    case ClaimNonce => NonceRefused(db, locks, t, tx);
    case ReadOwner => NonceRefused(db, locks, t, tx);
    case CountRefusals => CountRefused(db, tx);
    case ReadRelease => ReleaseAnswered(db, mem, tx);
    case Write => CommitTrue(db, mem, tx);
    case _ =>
  }

  /** A statement of `t` ends it in the state `s`. */
  ghost predicate EndsAt(h: string -> int, s: Pg, t: nat)
    requires AllFit(s)
  {
    && t in s.txs && IsOpen(s.txs[t])
    && t in Act(h, s, Go(t)).txs && Act(h, s, Go(t)).txs[t].pc.Closed?
  }

  lemma StateAnswersTruly(h: string -> int, s: Pg, w: World, t: nat)
    requires AllFit(s) && PgOk(h, s) && PayOk(s, w) && EndsAt(h, s, t) && s.txs[t].job.AppendJob?
    ensures TrueOf(s.db, s.txs[t].job, Act(h, s, Go(t)).txs[t].pc.answer)
  {
    hide LocksOk, DbOk, TxKnown, BudgetKnown, MoveOf, ClaimOk, UnlockAll, SameTables, SameLog, Solvent, Payable,
      TrueOf, Fits;
    MoveFits(h, s.db, s.locks, t, s.txs[t]);
    EndTrue(h, s.db, s.locks, w.store.books, t, s.txs[t]);
  }

  /** In every schedule, an append is told, at the step that ends it, what is true of the
      committed tables at that step: that its step is illegal, its mandate revoked, its window
      full, its amount above what the cap leaves over the reservation, its nonce spent for
      another context, or its context full of refusals; and it commits only if none is. */
  lemma AnswersTruly(h: string -> int, schedule: seq<Action>, t: nat)
    requires AllPayableActions(schedule) && EndsAt(h, Exec(h, schedule), t)
    requires Exec(h, schedule).txs[t].job.AppendJob?
    ensures var s := Exec(h, schedule); TrueOf(s.db, s.txs[t].job, Act(h, s, Go(t)).txs[t].pc.answer)
  {
    hide Exec, PgOk, PayOk, Act, Run, TrueOf;
    EveryScheduleOk(h, schedule);
    EveryScheduleRefines(h, schedule);
    StateAnswersTruly(h, Exec(h, schedule), Run(START, Commits(h, schedule)), t);
  }

  lemma StateRevokes(h: string -> int, s: Pg, t: nat)
    requires AllFit(s) && EndsAt(h, s, t) && s.txs[t].job.RevokeJob?
    ensures var s2 := Act(h, s, Go(t));
            s2.txs[t].pc.answer.Committed? && s.txs[t].job.mandate in s2.db.books.revoked
  {
    hide MoveReadRecord, MoveDecide, MoveNonce, MoveRelease, UnlockAll, ChainOf;
  }

  /** What a transaction that has ended leaves: an append a true answer, and a revocation,
      which nothing refuses, its mandate revoked. */
  ghost predicate EndedWell(db: Db, s2: Pg, t: nat)
    requires t in s2.txs && s2.txs[t].pc.Closed?
  {
    var job, answer := s2.txs[t].job, s2.txs[t].pc.answer;
    if job.AppendJob? then TrueOf(db, job, answer) else answer.Committed? && job.mandate in s2.db.books.revoked
  }

  // ----- alone -----

  /** Every transaction but `t` is closed. */
  predicate OnlyOpen(s: Pg, t: nat) {
    forall u :: u in s.txs && u != t ==> s.txs[u].pc.Closed?
  }

  lemma AloneNeverWaits(h: string -> int, s: Pg, t: nat)
    requires AllFit(s) && LocksOk(h, s) && ClaimsOk(s) && OnlyOpen(s, t) && t in s.txs && IsOpen(s.txs[t])
    ensures StepTx(h, s, t).Some?
  {
    hide LocksOk, StepTx, Place;
    var u := SomeoneSteps(h, s, t);
  }

  /** A statement of `t` that does not end it leaves the tables as they are. */
  lemma AloneSteps(h: string -> int, s: Pg, t: nat)
    requires AllFit(s) && PgOk(h, s) && OnlyOpen(s, t) && t in s.txs && IsOpen(s.txs[t])
    ensures var s2 := Act(h, s, Go(t));
            && OnlyOpen(s2, t) && t in s2.txs && s2.txs[t].job == s.txs[t].job
            && (IsOpen(s2.txs[t]) ==>
                  && s2.db == s.db.(counter := s2.db.counter)
                  && Place(s2.txs[t].pc) > Place(s.txs[t].pc))
  {
    hide LocksOk, DbOk, TxKnown, MoveOf, ClaimOk, UnlockAll, Place, Fits;
    var tx := s.txs[t];
    AloneNeverWaits(h, s, t);
    MoveFits(h, s.db, s.locks, t, tx);
    MoveKeepsTables(h, s.db, s.locks, t, tx);
    if MoveOf(h, s.db, s.locks, t, tx).Next? {
      MoveAdvances(h, s.db, s.locks, t, tx);
    }
  }

  lemma MeansAlike(a: Db, b: Db, job: Job, answer: Answer)
    requires job.AppendJob? && TrueOf(a, job, answer) && b == a.(counter := b.counter)
    ensures TrueOf(b, job, answer)
  {
    hide LegalStep, RateFull, Unaddable, Incomparable, OverCap, ChainOf, Denials, ClippedTo32;
    var r :| SaysAs(answer, r) && Means(StoreOf(a), job.ctx, job.at, job.body, r);
    assert Means(StoreOf(b), job.ctx, job.at, job.body, r);
  }

  /** Alone, `t` runs to its end on the tables it found. */
  lemma {:induction false} FinishesAlone(h: string -> int, so: seq<Action>, t: nat) returns (rest: seq<Action>)
    requires AllPayableActions(so)
    requires var s := Exec(h, so); OnlyOpen(s, t) && t in s.txs && IsOpen(s.txs[t])
    ensures forall i :: 0 <= i < |rest| ==> rest[i] == Go(t)
    ensures var s, s2 := Exec(h, so), Exec(h, so + rest);
            t in s2.txs && s2.txs[t].pc.Closed? && s2.txs[t].job == s.txs[t].job && EndedWell(s.db, s2, t)
    decreases LAST_PLACE - Place(Exec(h, so).txs[t].pc)
  {
    hide Exec, PgOk, PayOk, Act, Run, TrueOf, Place, PayableAction;
    var s := Exec(h, so);
    PlaceBounded(s.txs[t].pc);
    EveryScheduleOk(h, so);
    AloneSteps(h, s, t);
    ExecSnoc(h, so, Go(t));
    var next := so + [Go(t)];
    assert PayableAction(Go(t)) by { GoPayable(t); }
    if IsOpen(Exec(h, next).txs[t]) {
      PlaceBounded(Exec(h, next).txs[t].pc);
      var more := FinishesAlone(h, next, t);
      rest := [Go(t)] + more;
      assert so + rest == next + more;
      if s.txs[t].job.AppendJob? {
        MeansAlike(Exec(h, next).db, s.db, s.txs[t].job, Exec(h, so + rest).txs[t].pc.answer);
      }
    } else {
      rest := [Go(t)];
      if s.txs[t].job.AppendJob? {
        AnswersTruly(h, so, t);
      } else {
        StateRevokes(h, s, t);
      }
    }
  }

  lemma GoPayable(t: nat)
    ensures PayableAction(Go(t))
  {
  }

  /** Each answer means something else, so the tables settle it. */
  lemma CommitsExactly(db: Db, job: Job, answer: Answer)
    requires job.AppendJob? && TrueOf(db, job, answer)
    ensures answer.Committed? <==> Clear(StoreOf(db), job.ctx, job.at, job.body)
  {
    hide Means, Clear;
    var r :| SaysAs(answer, r) && Means(StoreOf(db), job.ctx, job.at, job.body, r);
    OneMeaning(StoreOf(db), job.ctx, job.at, job.body, r);
  }

  /** From any reachable state with no transaction open, one that runs alone ends. A
      revocation commits. An append commits if and only if nothing in the committed tables is
      against it, and otherwise is told what is. */
  lemma AloneExactly(h: string -> int, so: seq<Action>, t: nat, job: Job) returns (rest: seq<Action>)
    requires AllPayableActions(so) && AllClosed(Exec(h, so)) && t !in Exec(h, so).txs
    requires Payable(job)
    ensures forall i :: 0 <= i < |rest| ==> rest[i] == Go(t)
    ensures var s, s2 := Exec(h, so), Exec(h, so + [Open(t, job)] + rest);
            && t in s2.txs && s2.txs[t].pc.Closed? && s2.txs[t].job == job && EndedWell(s.db, s2, t)
            && (s2.txs[t].pc.answer.Committed? <==>
                  (job.AppendJob? ==> Clear(StoreOf(s.db), job.ctx, job.at, job.body)))
  {
    hide Exec, TrueOf, Clear, PayableAction;
    ExecSnoc(h, so, Open(t, job));
    var begun := so + [Open(t, job)];
    assert PayableAction(Open(t, job)) by { OpenPayable(t, job); }
    rest := FinishesAlone(h, begun, t);
    if job.AppendJob? {
      CommitsExactly(Exec(h, so).db, job, Exec(h, begun + rest).txs[t].pc.answer);
    }
  }

  lemma OpenPayable(t: nat, job: Job)
    requires Payable(job)
    ensures PayableAction(Open(t, job))
  {
  }

  // ----- the tables are the log -----

  lemma {:induction false} SameNonces(pg: seq<Event>, mem: seq<Event>)
    requires SameLog(pg, mem)
    ensures NoncesFrom(pg) == NoncesFrom(mem)
  {
    if pg != [] {
      var i := |pg| - 1;
      assert Payload(pg[i]) == Payload(mem[i]);
      SameNonces(DropLast(pg), DropLast(mem));
    }
  }

  /** The tables those answers are read from are what the committed log and revocations add
      up to: records, authorization times, nonces and revoked mandates. */
  lemma TablesAreTheLog(h: string -> int, schedule: seq<Action>, c: ContextId, m: MandateId)
    requires AllPayableActions(schedule)
    ensures var db := Exec(h, schedule).db;
            && Get(db.books.records, c) == RecordFrom(ChainOf(db.events, c))
            && TimesOf(db.books, m) == TimesUnder(db.events, m)
            && db.books.nonces == NoncesFrom(db.events)
            && (m in db.books.revoked <==> DoRevoke(m) in Commits(h, schedule))
  {
    hide Exec, Run, LocksOk, AllKnown, ContextFine, Ledgered, PostgresData.Ascending, Commits, AllPayable, BudgetsKnown,
      NeverCorrupt, Solvent, NoSmaller, SameLog, NoncesFrom, RecordFrom;
    PostgresClaims.ChainsVerify(h, schedule, c);
    EveryScheduleOk(h, schedule);
    EveryScheduleRefines(h, schedule);
    NoncesAreReplayed(Commits(h, schedule));
    RevokedExactly(Commits(h, schedule), m);
    SameNonces(Exec(h, schedule).db.events, Run(START, Commits(h, schedule)).history);
  }
}
