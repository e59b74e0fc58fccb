/** The PostgreSQL store against the in-memory one: in commit order, every append it commits
    is one the in-memory store accepts, with the same records, nonces, times and
    revocations, and never a smaller reservation. */
module PostgresRefines {
  import opened Prelude
  import opened Domain
  import opened Lifecycle
  import opened Events
  import opened Bookkeeping
  import opened StoreRuns
  import opened StoreClaims
  import opened Postgres
  import opened PostgresLocks
  import opened PostgresData

  /** The engine asks for no negative amount (`Scope::admits` refuses them). */
  predicate Payable(job: Job) {
    job.AppendJob? && job.body.Authorized? ==> job.body.cart.claims.total.amount >= 0
  }

  predicate PayableAction(a: Action) {
    a.Open? ==> Payable(a.job)
  }

  ghost predicate AllPayable(s: Pg) {
    forall t :: t in s.txs ==> Payable(s.txs[t].job)
  }

  /** What the in-memory store is asked when transaction `tx` commits. */
  function OpOf(tx: Tx): seq<Op> {
    if tx.pc.Write? && tx.job.AppendJob? then [DoAppend(tx.job.ctx, tx.job.at, tx.job.body)]
    else if tx.pc.WriteRevocation? && tx.job.RevokeJob? then [DoRevoke(tx.job.mandate)]
    else []
  }

  /** The operations one action commits. */
  function OpsOf(s: Pg, a: Action): seq<Op> {
    if a.Go? && a.tid in s.txs then OpOf(s.txs[a.tid]) else []
  }

  /** The operations a schedule commits, in commit order. */
  function Commits(h: string -> int, schedule: seq<Action>): seq<Op> {
    if schedule == [] then []
    else
      Commits(h, DropLast(schedule)) + OpsOf(Exec(h, DropLast(schedule)), Last(schedule))
  }

  // ----- the relation -----

  /** The same reservations, or larger ones. */
  ghost predicate NoSmaller(pg: map<MandateId, Money>, mem: map<MandateId, Money>) {
    && pg.Keys == mem.Keys
    && forall m :: m in pg ==> pg[m].currency == mem[m].currency && mem[m].amount <= pg[m].amount
  }

  /** An event as its writer gave it, without the number and the hashes. */
  function Payload(e: Event): (ContextId, Time, EventBody) {
    (e.ctx, e.at, e.body)
  }

  ghost predicate SameLog(pg: seq<Event>, mem: seq<Event>) {
    |pg| == |mem| && forall i :: 0 <= i < |pg| ==> Payload(pg[i]) == Payload(mem[i])
  }

  ghost predicate SameTables(pg: Books, mem: Books) {
    && pg.records == mem.records
    && pg.nonces == mem.nonces
    && pg.revoked == mem.revoked
    && pg.authTimes == mem.authTimes
    && NoSmaller(pg.reserved, mem.reserved)
  }

  ghost predicate Refines(db: Db, w: World) {
    && SameTables(db.books, w.store.books)
    && SameLog(db.events, w.store.events)
    && w.history == w.store.events
    && Solvent(w.store.books)
  }

  // ----- what an authorization knows of the budget -----

  /** Under the mandate's lock: a reservation no smaller than the row now is, which the
      amount fits on top of, within the cap. */
  predicate BudgetKnown(b: Books, tx: Tx) {
    PastCheck(tx, 5) ==>
      var id, amount := tx.job.body.mandate.body.id, tx.job.body.cart.claims.total;
      var cap := tx.job.body.mandate.body.scope.maxTotal;
      var sum := CheckedAdd(tx.read, amount);
      && sum.Ok? && (cap.Some? ==> Exceeds(sum.value, cap.value) == Ok(false))
      && tx.read.amount >= ReservedOr(b, id, amount.currency).amount >= 0
      && (id in b.reserved ==> b.reserved[id].currency == amount.currency)
      && (id !in b.reserved ==> tx.read.amount == 0)
  }

  ghost predicate BudgetsKnown(s: Pg) {
    forall t :: t in s.txs ==> BudgetKnown(s.db.books, s.txs[t])
  }

  ghost predicate NeverCorrupt(s: Pg) {
    forall t :: t in s.txs && s.txs[t].pc.Closed? && s.txs[t].pc.answer.Failed? ==> !s.txs[t].pc.answer.error.Corrupt?
  }

  /** Every live amount is covered by its mandate's row. */
  lemma RowCovers(b: Books, mem: Books, ctx: ContextId)
    requires SameTables(b, mem) && Solvent(mem) && ctx in b.records && IsLive(b.records[ctx].state)
    ensures var r := b.records[ctx]; Release(b, r.mandateId, r.amount).Ok?
    ensures b.records[ctx].amount.amount >= 0
  {
    ReleaseCovered(mem, ctx);
  }

  lemma RowsNonNegative(mem: Books, m: MandateId)
    requires Solvent(mem) && m in mem.reserved
    ensures mem.reserved[m].amount >= 0
  {
    TotalNonNegative(LiveAmounts(mem.records, m));
  }

  /** A release that is legal finds its reservation, and never goes negative. */
  lemma ReleaseAnswered(db: Db, mem: Books, tx: Tx)
    requires tx.pc.ReadRelease? && Fits(tx) && RecordKnown(db.books, tx)
    requires SameTables(db.books, mem) && Solvent(mem)
    ensures tx.existing.Some?
    ensures Release(db.books, tx.existing.value.mandateId, tx.existing.value.amount).Ok?
  {
    hide Solvent, Release;
    RowCovers(db.books, mem, tx.job.ctx);
  }

  lemma BudgetRead(db: Db, locks: Locks, mem: Books, tx: Tx)
    requires Fits(tx) && tx.pc.ReadReserved? && MoveDecide(db, locks, tx).Next?
    requires SameTables(db.books, mem) && Solvent(mem)
    ensures BudgetKnown(db.books, MoveDecide(db, locks, tx).tx)
  {
    hide Solvent;
    var id := tx.job.body.mandate.body.id;
    if id in mem.reserved {
      RowsNonNegative(mem, id);
    }
  }

  /** What is read of the budget stays as read until the commit. */
  lemma MoveKeepsRead(h: string -> int, db: Db, locks: Locks, t: nat, tx: Tx)
    requires Fits(tx) && MoveOf(h, db, locks, t, tx).Next? && !tx.pc.ReadReserved?
    ensures var next := MoveOf(h, db, locks, t, tx);
            next.tx.job == tx.job && next.tx.read == tx.read && next.db.books == db.books
    ensures PastCheck(MoveOf(h, db, locks, t, tx).tx, 5) ==> PastCheck(tx, 5)
  {
    hide DecideBudget, VelocityRefusal, CheckTransition, ChainOf, Release, ReservedOr, Denials;
    match tx.pc
    case WantContext =>
    case _ =>
  }

  lemma NextBudget(h: string -> int, db: Db, locks: Locks, mem: Books, t: nat, tx: Tx)
    requires Fits(tx) && MoveOf(h, db, locks, t, tx).Next? && BudgetKnown(db.books, tx)
    requires SameTables(db.books, mem) && Solvent(mem)
    ensures BudgetKnown(MoveOf(h, db, locks, t, tx).db.books, MoveOf(h, db, locks, t, tx).tx)
  {
    hide Solvent, SameTables, DecideBudget, VelocityRefusal, CheckTransition, ChainOf, Release, ReservedOr, Denials;
    if tx.pc.ReadReserved? {
      BudgetRead(db, locks, mem, tx);
      assert MoveOf(h, db, locks, t, tx) == MoveDecide(db, locks, tx);
    } else {
      MoveKeepsRead(h, db, locks, t, tx);
    }
  }

  /** The only statement that can find the books corrupt is a release, and it does not. */
  lemma EndAnswered(h: string -> int, db: Db, locks: Locks, mem: Books, t: nat, tx: Tx)
    requires Fits(tx) && RecordKnown(db.books, tx) && SameTables(db.books, mem) && Solvent(mem)
    ensures var move := MoveOf(h, db, locks, t, tx);
            move.End? && move.answer.Failed? ==> !move.answer.error.Corrupt?
  {
    hide Solvent, SameTables, VelocityRefusal, ChainOf, Release, Denials;
    if tx.pc.ReadRelease? {
      ReleaseAnswered(db, mem, tx);
    }
    match tx.pc
    case WantContext =>
    case _ =>
  }

  /** The row of `id` is as it was, or lower. */
  predicate RowLowered(b: Books, b2: Books, id: MandateId) {
    && (id in b.reserved <==> id in b2.reserved)
    && (id in b.reserved ==>
          && b2.reserved[id].currency == b.reserved[id].currency
          && 0 <= b2.reserved[id].amount <= b.reserved[id].amount)
  }

  lemma ReleaseLowers(db: Db, mem: Books, tx: Tx, id: MandateId)
    requires tx.pc.Write? && tx.job.AppendJob? && Releases(tx.job.body)
    requires RecordKnown(db.books, tx) && TipKnown(db, tx)
    requires SameTables(db.books, mem) && Solvent(mem)
    ensures RowLowered(db.books, Written(db.books, tx), id)
  {
    hide Solvent, Advance, ChainOf;
    RowCovers(db.books, mem, tx.job.ctx);
    if id in mem.reserved {
      RowsNonNegative(mem, id);
    }
  }

  lemma WriteLowers(db: Db, mem: Books, tx: Tx, id: MandateId)
    requires tx.pc.Write? && tx.job.AppendJob? && RecordKnown(db.books, tx) && TipKnown(db, tx)
    requires SameTables(db.books, mem) && Solvent(mem)
    requires tx.job.body.Authorized? ==> tx.job.body.mandate.body.id != id
    ensures RowLowered(db.books, Written(db.books, tx), id)
  {
    hide Solvent, Advance, RecordKnown, TipKnown;
    if id in mem.reserved {
      RowsNonNegative(mem, id);
    }
    if Releases(tx.job.body) {
      ReleaseLowers(db, mem, tx, id);
    }
  }

  lemma LoweredKeepsBudget(b: Books, b2: Books, tx: Tx)
    requires BudgetKnown(b, tx)
    requires PastCheck(tx, 5) ==> RowLowered(b, b2, tx.job.body.mandate.body.id)
    ensures BudgetKnown(b2, tx)
  {
  }

  /** Under the mandate's lock only releases touch the row, and they only lower it. */
  lemma WriteKeepsBudget(db: Db, mem: Books, a: Tx, b: Tx)
    requires Apart(a, b) && a.pc.Write? && a.job.AppendJob? && TxKnown(db, a)
    requires BudgetKnown(db.books, b) && SameTables(db.books, mem) && Solvent(mem)
    ensures BudgetKnown(Written(db.books, a), b)
  {
    hide BudgetKnown, SameTables, Solvent, Written, RowLowered,
      RecordKnown, TipKnown, NonceKnown, VelocityKnown, RevocationKnown, RefusalsKnown, NumberKnown;
    if PastCheck(b, 5) {
      assert HoldsMandate(b, b.job.body.mandate.body.id);
      if a.job.body.Authorized? {
        assert HoldsMandate(a, a.job.body.mandate.body.id);
      }
      WriteLowers(db, mem, a, b.job.body.mandate.body.id);
    }
    LoweredKeepsBudget(db.books, Written(db.books, a), b);
  }

  // ----- every commit is accepted -----

  lemma AuthorizedAccepted(b: Books, mem: Books, tx: Tx)
    requires tx.pc.Write? && tx.job.AppendJob? && tx.job.body.Authorized? && Payable(tx.job)
    requires RecordKnown(b, tx) && RevocationKnown(b, tx) && VelocityKnown(b, tx) && BudgetKnown(b, tx)
    requires SameTables(b, mem) && Solvent(mem)
    ensures var d := DecideAuthorized(mem, tx.job.ctx, tx.job.at, tx.job.body.mandate, tx.job.body.cart);
            d.Ok? && d.value.Proceed?
  {
    hide Solvent, CountSince;
    var id := tx.job.body.mandate.body.id;
    if id in mem.reserved {
      RowsNonNegative(mem, id);
    }
  }

  lemma OthersAccepted(db: Db, mem: Books, denials: nat, tx: Tx)
    requires tx.pc.Write? && tx.job.AppendJob? && !tx.job.body.Authorized?
    requires RecordKnown(db.books, tx) && NonceKnown(db.books, tx) && RefusalsKnown(db.events, tx)
    requires SameTables(db.books, mem) && Solvent(mem)
    requires denials == Denials(ChainOf(db.events, tx.job.ctx))
    ensures var d := Decide(mem, denials, tx.job.ctx, tx.job.at, tx.job.body);
            d.Ok? && d.value.Proceed? && Commit(mem, tx.job.ctx, tx.job.at, tx.job.body, d.value.fx).Ok?
  {
    hide Solvent, DecideAuthorized, ChainOf, Denials, Release, Note;
    if Releases(tx.job.body) {
      ReleaseCovered(mem, tx.job.ctx);
    }
  }

  lemma {:induction false} SameRefusals(pg: seq<Event>, mem: seq<Event>, c: ContextId)
    requires SameLog(pg, mem)
    ensures Denials(ChainOf(pg, c)) == Denials(ChainOf(mem, c))
  {
    if pg != [] {
      var i := |pg| - 1;
      assert Payload(pg[i]) == Payload(mem[i]);
      SameRefusals(DropLast(pg), DropLast(mem), c);
      SnocParts(ChainOf(DropLast(pg), c), Last(pg));
      SnocParts(ChainOf(DropLast(mem), c), Last(mem));
    }
  }

  lemma CommitAccepted(db: Db, w: World, tx: Tx)
    requires tx.pc.Write? && tx.job.AppendJob? && Payable(tx.job)
    requires TxKnown(db, tx) && BudgetKnown(db.books, tx) && Refines(db, w)
    ensures IsAppended(Append(w.store, tx.job.ctx, tx.job.at, tx.job.body).1)
  {
    hide SameTables, Solvent, BudgetKnown, RecordKnown, NonceKnown, VelocityKnown, RevocationKnown, RefusalsKnown,
      NumberKnown, TipKnown, DecideAuthorized, DecidePaid, DecideMove, Commit, Denials, ChainOf;
    SameRefusals(db.events, w.store.events, tx.job.ctx);
    if tx.job.body.Authorized? {
      AuthorizedAccepted(db.books, w.store.books, tx);
      AuthorizedApplies(w.store.books, tx.job.ctx, tx.job.at, tx.job.body);
    } else {
      OthersAccepted(db, w.store.books, Denials(ChainOf(db.events, tx.job.ctx)), tx);
    }
  }

  /** Both stores' tables move alike, and the reservation stays no smaller. */
  lemma CommitSameTables(db: Db, mem: Books, mem2: Books, tx: Tx)
    requires tx.pc.Write? && tx.job.AppendJob? && ClaimOk(tx) && TxKnown(db, tx) && BudgetKnown(db.books, tx)
    requires SameTables(db.books, mem) && Applied(mem, mem2, tx.job.ctx, tx.job.at, tx.job.body)
    ensures SameTables(Written(db.books, tx), mem2)
  {
    hide Recorded, TimesMove, ClaimOk, TxKnown, Written;
    WriteRecorded(db, tx);
    SameMoves(db.books, Written(db.books, tx), mem, mem2, tx.job.ctx, tx.job.at, tx.job.body);
    WrittenNoSmaller(db, mem, mem2, tx);
  }

  lemma SameMoves(b: Books, b2: Books, mem: Books, mem2: Books, ctx: ContextId, at: Time, body: EventBody)
    requires b.records == mem.records && b.nonces == mem.nonces && b.authTimes == mem.authTimes
    requires Recorded(b, b2, ctx, body) && Recorded(mem, mem2, ctx, body)
    requires TimesMove(b, b2, at, body) && TimesMove(mem, mem2, at, body)
    ensures b2.records == mem2.records && b2.nonces == mem2.nonces && b2.authTimes == mem2.authTimes
  {
    hide VelocityRefusal, LegalStep, NewRecord, Advance;
  }

  lemma WrittenNoSmaller(db: Db, mem: Books, mem2: Books, tx: Tx)
    requires tx.pc.Write? && tx.job.AppendJob? && TxKnown(db, tx) && BudgetKnown(db.books, tx)
    requires SameTables(db.books, mem) && Refunded(mem, mem2, tx.job.ctx, tx.job.body)
    ensures NoSmaller(Written(db.books, tx).reserved, mem2.reserved)
    ensures Written(db.books, tx).revoked == db.books.revoked
  {
    hide VelocityKnown, RefusalsKnown, RevocationKnown, NonceKnown, NumberKnown, ChainOf, Advance, NewRecord;
  }

  lemma SameLogSnoc(pg: seq<Event>, mem: seq<Event>, e: Event, f: Event)
    requires SameLog(pg, mem) && Payload(e) == Payload(f)
    ensures SameLog(pg + [e], mem + [f])
  {
  }

  /** One commit, matched by one append to the in-memory store. */
  lemma CommitRefines(db: Db, w: World, tx: Tx)
    requires tx.pc.Write? && tx.job.AppendJob? && Payable(tx.job) && ClaimOk(tx)
    requires TxKnown(db, tx) && BudgetKnown(db.books, tx) && Refines(db, w)
    ensures Refines(WriteDb(db, tx), Step(w, DoAppend(tx.job.ctx, tx.job.at, tx.job.body)))
  {
    hide SameTables, SameLog, Solvent, BudgetKnown, TxKnown, ClaimOk, Append, Written, Applied, Payable;
    var ctx, at, body := tx.job.ctx, tx.job.at, tx.job.body;
    CommitAccepted(db, w, tx);
    AppendEffect(w.store, ctx, at, body);
    var (s2, r) := Append(w.store, ctx, at, body);
    CommitSameTables(db, w.store.books, s2.books, tx);
    SameLogSnoc(db.events, w.store.events, EventOf(tx), r.value.event);
    PayableCharges(tx.job);
    AppliedSolvent(w.store.books, s2.books, ctx, at, body);
  }

  lemma PayableCharges(job: Job)
    requires Payable(job) && job.AppendJob?
    ensures job.body.Authorized? ==> job.body.cart.claims.total.amount >= 0
  {
  }

  lemma RevokeRefines(db: Db, w: World, mandate: MandateId)
    requires Refines(db, w)
    ensures Refines(RevokeDb(db, mandate), Step(w, DoRevoke(mandate)))
  {
    hide SameLog, LiveTotal, NoSmaller;
  }

  // ----- every schedule -----

  ghost predicate PayOk(s: Pg, w: World) {
    AllPayable(s) && BudgetsKnown(s) && NeverCorrupt(s) && Refines(s.db, w)
  }

  /** The tables after a statement of `tx`, matched by what it commits, if anything. */
  lemma MoveRefines(h: string -> int, db: Db, locks: Locks, w: World, t: nat, tx: Tx)
    requires Fits(tx) && Payable(tx.job) && ClaimOk(tx)
    requires TxKnown(db, tx) && BudgetKnown(db.books, tx) && Refines(db, w)
    requires !MoveOf(h, db, locks, t, tx).Wait?
    ensures Refines(MoveOf(h, db, locks, t, tx).db, Run(w, OpOf(tx)))
  {
    hide TxKnown, BudgetKnown, ClaimOk, MoveOf, WriteDb, RevokeDb, Payable, Step, SameTables, SameLog, Solvent, Fits;
    assert Fits(tx) && (tx.pc.Write? ==> tx.job.AppendJob?) && (tx.pc.WriteRevocation? ==> tx.job.RevokeJob?) by {
      FitsJobs(tx);
    }
    MoveKeepsTables(h, db, locks, t, tx);
    if tx.pc.Write? {
      WriteEnds(h, db, locks, t, tx);
      CommitRefines(db, w, tx);
      RunOne(w, OpOf(tx)[0]);
    } else if tx.pc.WriteRevocation? {
      WriteEnds(h, db, locks, t, tx);
      RevokeRefines(db, w, tx.job.mandate);
      RunOne(w, OpOf(tx)[0]);
    }
  }

  lemma FitsJobs(tx: Tx)
    requires Fits(tx)
    ensures (tx.pc.Write? ==> tx.job.AppendJob?) && (tx.pc.WriteRevocation? ==> tx.job.RevokeJob?)
  {
  }

  lemma WriteEnds(h: string -> int, db: Db, locks: Locks, t: nat, tx: Tx)
    requires Fits(tx) && (tx.pc.Write? || tx.pc.WriteRevocation?)
    ensures MoveOf(h, db, locks, t, tx).End?
  {
  }

  lemma RunOne(w: World, op: Op)
    ensures Run(w, [op]) == Step(w, op)
  {
    assert DropLast([op]) == [];
  }

  /** A transaction's next statement leaves the budgets known and no answer corrupt. */
  lemma GoPays(h: string -> int, s: Pg, w: World, t: nat)
    requires AllFit(s) && PgOk(h, s) && PayOk(s, w) && t in s.txs
    ensures PayOk(Act(h, s, Go(t)), Run(w, OpOf(s.txs[t])))
  {
    hide LocksOk, DbOk, TxKnown, BudgetKnown, MoveOf, ClaimOk, UnlockAll, Apart, Fits, SameTables, SameLog, Solvent,
      Payable, Run;
    var tx := s.txs[t];
    var move := MoveOf(h, s.db, s.locks, t, tx);
    if move.Wait? {
      WaitCommitsNothing(h, s.db, s.locks, t, tx, w);
    } else {
      MoveRefines(h, s.db, s.locks, w, t, tx);
      OthersBudgets(h, s, w, t);
      MoveJob(h, s.db, s.locks, t, tx);
      if move.Next? {
        NextBudget(h, s.db, s.locks, w.store.books, t, tx);
      } else {
        assert RecordKnown(s.db.books, tx) by { KnowsRecord(s.db, tx); }
        EndAnswered(h, s.db, s.locks, w.store.books, t, tx);
        ClosedBudget(move.db.books, tx.(pc := Closed(move.answer)));
      }
    }
  }

  lemma KnowsRecord(db: Db, tx: Tx)
    requires TxKnown(db, tx)
    ensures RecordKnown(db.books, tx)
  {
  }

  lemma ClosedBudget(b: Books, tx: Tx)
    requires !IsOpen(tx)
    ensures BudgetKnown(b, tx)
  {
  }

  lemma MoveJob(h: string -> int, db: Db, locks: Locks, t: nat, tx: Tx)
    requires Fits(tx)
    ensures var move := MoveOf(h, db, locks, t, tx); move.Next? ==> move.tx.job == tx.job && !move.tx.pc.Closed?
  {
    hide MoveOf;
    MoveFits(h, db, locks, t, tx);
  }

  lemma WaitCommitsNothing(h: string -> int, db: Db, locks: Locks, t: nat, tx: Tx, w: World)
    requires Fits(tx) && MoveOf(h, db, locks, t, tx).Wait?
    ensures Run(w, OpOf(tx)) == w
  {
    hide MoveOf;
    if tx.pc.Write? || tx.pc.WriteRevocation? {
      WriteEnds(h, db, locks, t, tx);
    }
  }

  lemma OthersBudgets(h: string -> int, s: Pg, w: World, t: nat)
    requires AllFit(s) && PgOk(h, s) && BudgetsKnown(s) && Refines(s.db, w) && t in s.txs
    requires !MoveOf(h, s.db, s.locks, t, s.txs[t]).Wait?
    ensures forall u :: u in s.txs && u != t ==>
              BudgetKnown(MoveOf(h, s.db, s.locks, t, s.txs[t]).db.books, s.txs[u])
  {
    hide LocksOk, DbOk, TxKnown, BudgetKnown, MoveOf, ClaimOk, Apart, SameTables, SameLog, Solvent, Written, Fits;
    var tx := s.txs[t];
    FitsJobs(tx);
    MoveKeepsTables(h, s.db, s.locks, t, tx);
    forall u | u in s.txs && u != t
      ensures BudgetKnown(MoveOf(h, s.db, s.locks, t, tx).db.books, s.txs[u])
    {
      LocksKeepApart(h, s, t, u);
      if tx.pc.Write? {
        WriteEnds(h, s.db, s.locks, t, tx);
        WriteKeepsBudget(s.db, w.store.books, tx, s.txs[u]);
      } else if tx.pc.WriteRevocation? {
        WriteEnds(h, s.db, s.locks, t, tx);
        RevokeKeepsBudget(s.db, tx.job.mandate, s.txs[u]);
      }
    }
  }

  lemma RevokeKeepsBudget(db: Db, mandate: MandateId, tx: Tx)
    requires BudgetKnown(db.books, tx)
    ensures BudgetKnown(RevokeDb(db, mandate).books, tx)
  {
  }

  lemma ActPays(h: string -> int, s: Pg, w: World, a: Action)
    requires AllFit(s) && PgOk(h, s) && PayOk(s, w) && PayableAction(a)
    ensures PayOk(Act(h, s, a), Run(w, OpsOf(s, a)))
  {
    hide LocksOk, DbOk, TxKnown, BudgetKnown, MoveOf, ClaimOk, UnlockAll, Fits, SameTables, SameLog, Solvent;
    match a
    case Open(t, job) =>
      if t !in s.txs {
        OpenBudget(s.db.books, job);
      }
    case Go(t) =>
      if t in s.txs {
        GoPays(h, s, w, t);
      }
    case Abort(t) =>
      if t in s.txs {
        ClosedBudget(s.db.books, s.txs[t].(pc := Closed(RolledBack)));
      }
  }

  lemma OpenBudget(b: Books, job: Job)
    ensures BudgetKnown(b, OpenTx(job))
  {
  }
}
