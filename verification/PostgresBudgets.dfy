/** Budgets in the PostgreSQL store: every commit is one the in-memory store accepts, no
    answer is a corruption error, and a reservation is never above the cap. */
module PostgresBudgets {
  import opened Prelude
  import opened Domain
  import opened Bookkeeping
  import opened StoreRuns
  import opened StoreClaims
  import opened Postgres
  import opened PostgresLocks
  import opened PostgresData
  import opened PostgresRefines
  import opened PostgresClaims

  ghost predicate AllPayableActions(schedule: seq<Action>) {
    forall i :: 0 <= i < |schedule| ==> PayableAction(schedule[i])
  }

  /** Every operation committed is one the in-memory store, having taken those committed
      before it, accepts. */
  predicate EachAppended(ops: seq<Op>) {
    forall i :: 0 <= i < |ops| && ops[i].DoAppend? ==>
      IsAppended(Append(Run(START, ops[..i]).store, ops[i].ctx, ops[i].at, ops[i].body).1)
  }

  lemma EachAppendedSnoc(ops: seq<Op>, more: seq<Op>)
    requires EachAppended(ops) && |more| <= 1
    requires forall op :: op in more && op.DoAppend? ==>
               IsAppended(Append(Run(START, ops).store, op.ctx, op.at, op.body).1)
    ensures EachAppended(ops + more)
  {
    hide Append;
    var all := ops + more;
    forall i | 0 <= i < |all| && all[i].DoAppend?
      ensures IsAppended(Append(Run(START, all[..i]).store, all[i].ctx, all[i].at, all[i].body).1)
    {
      if i < |ops| {
        assert all[..i] == ops[..i];
      } else {
        assert all[..i] == ops && all[i] in more;
      }
    }
  }

  lemma OpsAccepted(h: string -> int, s: Pg, w: World, a: Action)
    requires AllFit(s) && PgOk(h, s) && PayOk(s, w)
    ensures |OpsOf(s, a)| <= 1
    ensures forall op :: op in OpsOf(s, a) && op.DoAppend? ==> IsAppended(Append(w.store, op.ctx, op.at, op.body).1)
  {
    hide LocksOk, DbOk, TxKnown, BudgetKnown, ClaimOk, Append, Payable, SameTables, SameLog, Solvent;
    if a.Go? && a.tid in s.txs && s.txs[a.tid].pc.Write? && s.txs[a.tid].job.AppendJob? {
      CommitAccepted(s.db, w, s.txs[a.tid]);
    }
  }

  lemma {:induction false} EveryCommitAccepted(h: string -> int, schedule: seq<Action>)
    requires AllPayableActions(schedule)
    ensures EachAppended(Commits(h, schedule))
  {
    hide PgOk, PayOk, Act, PayableAction, EachAppended, OpsOf, Append;
    if schedule == [] {
      assert EachAppended([]) by { NoneToAppend(); }
    } else {
      var front := DropLast(schedule);
      EveryCommitAccepted(h, front);
      EveryScheduleOk(h, front);
      EveryScheduleRefines(h, front);
      OpsAccepted(h, Exec(h, front), Run(START, Commits(h, front)), Last(schedule));
      EachAppendedSnoc(Commits(h, front), OpsOf(Exec(h, front), Last(schedule)));
    }
  }

  lemma NoneToAppend()
    ensures EachAppended([])
  {
  }

  /** No transaction is ever answered with a corruption error. */
  lemma NeverAnsweredCorrupt(h: string -> int, schedule: seq<Action>, t: nat)
    requires AllPayableActions(schedule)
    requires t in Exec(h, schedule).txs && Exec(h, schedule).txs[t].pc.Closed?
    ensures var answer := Exec(h, schedule).txs[t].pc.answer; answer.Failed? ==> !answer.error.Corrupt?
  {
    hide Exec, Run, AllPayable, BudgetsKnown, Refines;
    EveryScheduleRefines(h, schedule);
  }

  // ----- the cap -----

  predicate JobCarriesCap(a: Action, m: MandateId, cap: Money) {
    a.Open? && a.job.AppendJob? && a.job.body.Authorized? && a.job.body.mandate.body.id == m ==>
      a.job.body.mandate.body.scope.maxTotal == Some(cap)
  }

  ghost predicate CarryCap(s: Pg, m: MandateId, cap: Money) {
    forall t :: t in s.txs ==> JobCarriesCap(Open(t, s.txs[t].job), m, cap)
  }

  lemma ActCarriesCap(h: string -> int, s: Pg, a: Action, m: MandateId, cap: Money)
    requires AllFit(s) && CarryCap(s, m, cap) && JobCarriesCap(a, m, cap)
    ensures CarryCap(Act(h, s, a), m, cap)
  {
    hide Act, Fits;
    forall t | t in Act(h, s, a).txs
      ensures JobCarriesCap(Open(t, Act(h, s, a).txs[t].job), m, cap)
    {
      ActJobs(h, s, a, t);
    }
  }

  lemma WriteWithinCap(db: Db, mem: Books, tx: Tx, m: MandateId, cap: Money)
    requires tx.pc.Write? && tx.job.AppendJob? && TxKnown(db, tx) && BudgetKnown(db.books, tx)
    requires SameTables(db.books, mem) && Solvent(mem) && WithinCap(db.books, m, cap)
    requires JobCarriesCap(Open(0, tx.job), m, cap)
    ensures WithinCap(Written(db.books, tx), m, cap)
  {
    hide Solvent, SameTables, RefusalsKnown, VelocityKnown, RevocationKnown, NonceKnown, NumberKnown, NewRecord,
      Advance;
    if !(tx.job.body.Authorized? && tx.job.body.mandate.body.id == m) {
      WriteLowers(db, mem, tx, m);
    }
  }

  lemma ActWithinCap(h: string -> int, s: Pg, w: World, a: Action, m: MandateId, cap: Money)
    requires AllFit(s) && PgOk(h, s) && PayOk(s, w) && CarryCap(s, m, cap) && WithinCap(s.db.books, m, cap)
    ensures WithinCap(Act(h, s, a).db.books, m, cap)
  {
    hide Act, LocksOk, DbOk, TxKnown, BudgetKnown, SameTables, SameLog, Solvent, Written, Fits;
    ActTables(h, s, a);
    if a.Go? && a.tid in s.txs && s.txs[a.tid].pc.Write? {
      FitsJobs(s.txs[a.tid]);
      assert JobCarriesCap(Open(a.tid, s.txs[a.tid].job), m, cap);
      WriteWithinCap(s.db, w.store.books, s.txs[a.tid], m, cap);
    }
  }

  /** A shared cap is never exceeded, by any interleaving of authorizations and releases. */
  lemma {:induction false} CapHolds(h: string -> int, schedule: seq<Action>, m: MandateId, cap: Money)
    requires AllPayableActions(schedule)
    requires forall i :: 0 <= i < |schedule| ==> JobCarriesCap(schedule[i], m, cap)
    ensures WithinCap(Exec(h, schedule).db.books, m, cap) && CarryCap(Exec(h, schedule), m, cap)
  {
    hide PgOk, PayOk, Act, PayableAction, JobCarriesCap;
    if schedule != [] {
      var front := DropLast(schedule);
      CapHolds(h, front, m, cap);
      EveryScheduleOk(h, front);
      EveryScheduleRefines(h, front);
      ActCarriesCap(h, Exec(h, front), Last(schedule), m, cap);
      ActWithinCap(h, Exec(h, front), Run(START, Commits(h, front)), Last(schedule), m, cap);
    }
  }
}
