/** Releases that authorizations overwrite in the PostgreSQL store: what is reserved is what
    is live plus what was lost, and exactly which schedules lose anything. */
module PostgresLost {
  import opened Prelude
  import opened Domain
  import opened Events
  import opened Bookkeeping
  import opened StoreRuns
  import opened StoreClaims
  import opened Postgres
  import opened PostgresLocks
  import opened PostgresData
  import opened PostgresRefines
  import opened PostgresClaims
  import opened PostgresBudgets

  /** What is reserved against `m`, by its row. */
  function Owed(b: Books, m: MandateId): int {
    if m in b.reserved then b.reserved[m].amount else 0
  }

  // ----- what an action does to the row of a mandate -----

  /** `a` commits an append. */
  predicate IsCommit(s: Pg, a: Action) {
    a.Go? && a.tid in s.txs && s.txs[a.tid].pc.Write? && s.txs[a.tid].job.AppendJob?
  }

  /** `a` commits an authorization under `m`. */
  predicate Grants(s: Pg, a: Action, m: MandateId) {
    IsCommit(s, a) && s.txs[a.tid].job.body.Authorized? && s.txs[a.tid].job.body.mandate.body.id == m
  }

  /** `a` is transaction `t` reading the row of its mandate. */
  predicate ReadsRow(s: Pg, a: Action, t: nat) {
    a == Go(t) && t in s.txs && s.txs[t].pc.ReadReserved?
  }

  /** What `a` gives back to `m`: the amount of the context it commits a release of. */
  function GivenBack(s: Pg, a: Action, m: MandateId): int {
    if IsCommit(s, a) && Releases(s.txs[a.tid].job.body)
       && s.txs[a.tid].job.ctx in s.db.books.records && s.db.books.records[s.txs[a.tid].job.ctx].mandateId == m
    then s.db.books.records[s.txs[a.tid].job.ctx].amount.amount
    else 0
  }

  /** What has been given back to `m` since transaction `t` read its row. */
  function TakenSince(h: string -> int, schedule: seq<Action>, t: nat, m: MandateId): int {
    if schedule == [] then 0
    else
      var s, a := Exec(h, DropLast(schedule)), Last(schedule);
      if ReadsRow(s, a, t) then 0 else TakenSince(h, DropLast(schedule), t, m) + GivenBack(s, a, m)
  }

  /** What the authorizations under `m` that committed had overwritten: for each, what was
      given back to `m` between its reading of the row and its commit. */
  function Lost(h: string -> int, schedule: seq<Action>, m: MandateId): int {
    if schedule == [] then 0
    else Lost(h, DropLast(schedule), m) + LostBy(h, DropLast(schedule), Last(schedule), m)
  }

  function LostBy(h: string -> int, so: seq<Action>, a: Action, m: MandateId): int {
    if Grants(Exec(h, so), a, m) then TakenSince(h, so, a.tid, m) else 0
  }

  // ----- what an authorization read -----

  /** Between the reading and the commit, the row falls by what is given back. */
  predicate ReadKnown(b: Books, tx: Tx, taken: int) {
    PastCheck(tx, 5) ==>
      && CheckedAdd(tx.read, tx.job.body.cart.claims.total).Ok?
      && tx.read.amount == Owed(b, tx.job.body.mandate.body.id) + taken
  }

  /** The mandate an authorization is under. */
  function MandateOfTx(tx: Tx): MandateId {
    if tx.job.AppendJob? && tx.job.body.Authorized? then tx.job.body.mandate.body.id else ""
  }

  lemma WriteOwed(db: Db, tx: Tx, m: MandateId)
    requires tx.pc.Write? && tx.job.AppendJob? && RecordKnown(db.books, tx) && TipKnown(db, tx)
    requires !(tx.job.body.Authorized? && tx.job.body.mandate.body.id == m)
    ensures var r := Get(db.books.records, tx.job.ctx);
            Owed(Written(db.books, tx), m) ==
            Owed(db.books, m)
            - if Releases(tx.job.body) && r.Some? && r.value.mandateId == m then r.value.amount.amount else 0
  {
    hide Advance, NewRecord, ChainOf;
  }

  lemma OthersRead(h: string -> int, s: Pg, a: Action, t: nat, taken: int)
    requires AllFit(s) && PgOk(h, s) && t in s.txs && !(a.Go? && a.tid == t)
    requires ReadKnown(s.db.books, s.txs[t], taken)
    ensures ReadKnown(Act(h, s, a).db.books, s.txs[t], taken + GivenBack(s, a, MandateOfTx(s.txs[t])))
  {
    hide Act, LocksOk, DbOk, RefusalsKnown, VelocityKnown, RevocationKnown, NonceKnown, NumberKnown, TipKnown,
      RecordKnown, Written, Fits;
    ActTables(h, s, a);
    if a.Go? && a.tid in s.txs && s.txs[a.tid].pc.Write? && PastCheck(s.txs[t], 5) {
      FitsJobs(s.txs[a.tid]);
      LocksKeepApart(h, s, a.tid, t);
      MandatesApart(s.txs[a.tid], s.txs[t]);
      WriteOwed(s.db, s.txs[a.tid], MandateOfTx(s.txs[t]));
    }
  }

  lemma MandatesApart(a: Tx, b: Tx)
    requires Apart(a, b) && a.pc.Write? && a.job.AppendJob? && PastCheck(b, 5)
    ensures !(a.job.body.Authorized? && a.job.body.mandate.body.id == MandateOfTx(b))
  {
    assert HoldsMandate(b, MandateOfTx(b));
    if a.job.body.Authorized? {
      assert HoldsMandate(a, a.job.body.mandate.body.id);
    }
  }

  lemma JustRead(db: Db, locks: Locks, tx: Tx)
    requires Fits(tx) && tx.pc.ReadReserved? && MoveDecide(db, locks, tx).Next?
    ensures ReadKnown(db.books, MoveDecide(db, locks, tx).tx, 0)
    ensures MoveDecide(db, locks, tx).db == db
  {
  }

  /** A transaction's own statement: it reads the row now, or keeps what it read. */
  lemma OwnRead(h: string -> int, s: Pg, t: nat, taken: int)
    requires AllFit(s) && t in s.txs && ReadKnown(s.db.books, s.txs[t], taken)
    ensures var s2 := Act(h, s, Go(t));
            ReadKnown(s2.db.books, s2.txs[t],
                      if ReadsRow(s, Go(t), t) then 0 else taken + GivenBack(s, Go(t), MandateOfTx(s2.txs[t])))
  {
    hide MoveOf, MoveDecide, Written, UnlockAll, Fits, CheckedAdd;
    var tx := s.txs[t];
    var move := MoveOf(h, s.db, s.locks, t, tx);
    if move.Next? {
      if tx.pc.ReadReserved? {
        ReadIsDecide(h, s.db, s.locks, t, tx);
        JustRead(s.db, s.locks, tx);
      } else {
        MoveKeepsRead(h, s.db, s.locks, t, tx);
        NextIsNoCommit(h, s.db, s.locks, t, tx);
      }
    } else if move.Wait? {
      WaitIsNoCommit(h, s.db, s.locks, t, tx);
    }
  }

  lemma ReadIsDecide(h: string -> int, db: Db, locks: Locks, t: nat, tx: Tx)
    requires Fits(tx) && tx.pc.ReadReserved?
    ensures MoveOf(h, db, locks, t, tx) == MoveDecide(db, locks, tx)
  {
    hide MoveDecide;
  }

  lemma NextIsNoCommit(h: string -> int, db: Db, locks: Locks, t: nat, tx: Tx)
    requires Fits(tx) && MoveOf(h, db, locks, t, tx).Next?
    ensures !tx.pc.Write?
  {
    hide MoveOf;
    if tx.pc.Write? {
      WriteEnds(h, db, locks, t, tx);
    }
  }

  lemma WaitIsNoCommit(h: string -> int, db: Db, locks: Locks, t: nat, tx: Tx)
    requires Fits(tx) && MoveOf(h, db, locks, t, tx).Wait?
    ensures !tx.pc.Write? && !tx.pc.ReadReserved?
  {
    hide MoveOf, DecideBudget;
    if tx.pc.Write? {
      WriteEnds(h, db, locks, t, tx);
    }
    if tx.pc.ReadReserved? {
      ReadIsDecide(h, db, locks, t, tx);
    }
  }

  /** What every authorization in flight has read is its mandate's row now, plus what has
      been given back since. */
  lemma {:induction false} ReadsKnown(h: string -> int, schedule: seq<Action>, t: nat)
    requires t in Exec(h, schedule).txs
    ensures var s := Exec(h, schedule);
            ReadKnown(s.db.books, s.txs[t], TakenSince(h, schedule, t, MandateOfTx(s.txs[t])))
  {
    hide Act, PgOk, ReadKnown, GivenBack;
    if schedule != [] {
      var front, a := DropLast(schedule), Last(schedule);
      var s := Exec(h, front);
      EveryScheduleOk(h, front);
      ActJobs(h, s, a, t);
      if t in s.txs {
        ReadsKnown(h, front, t);
        var taken := TakenSince(h, front, t, MandateOfTx(s.txs[t]));
        if a.Go? && a.tid == t {
          OwnRead(h, s, t, taken);
        } else {
          OthersRead(h, s, a, t, taken);
          ActKeepsOthers(h, s, a, t);
          var s2 := Exec(h, schedule);
          ClosedRead(s2.db.books, s2.txs[t], TakenSince(h, schedule, t, MandateOfTx(s.txs[t])));
        }
      } else {
        NotYetRead(Exec(h, schedule).db.books, a.job, TakenSince(h, schedule, t, MandateOfTx(OpenTx(a.job))));
        ActOpens(h, s, a, t);
      }
    }
  }

  lemma ClosedRead(b: Books, tx: Tx, taken: int)
    ensures !IsOpen(tx) ==> ReadKnown(b, tx, taken)
  {
  }

  lemma NotYetRead(b: Books, job: Job, taken: int)
    ensures ReadKnown(b, OpenTx(job), taken)
  {
  }

  lemma ActOpens(h: string -> int, s: Pg, a: Action, t: nat)
    requires AllFit(s) && a.Open? && a.tid == t && t !in s.txs
    ensures t in Act(h, s, a).txs && Act(h, s, a).txs[t] == OpenTx(a.job)
  {
  }

  lemma ActKeepsOthers(h: string -> int, s: Pg, a: Action, t: nat)
    requires AllFit(s) && t in s.txs && !(a.Go? && a.tid == t)
    ensures t in Act(h, s, a).txs
    ensures Act(h, s, a).txs[t] == s.txs[t] || !IsOpen(Act(h, s, a).txs[t])
  {
    hide MoveOf, UnlockAll, Fits;
  }

  // ----- what is reserved -----

  lemma GrantLoses(db: Db, tx: Tx, taken: int, m: MandateId)
    requires tx.pc.Write? && tx.job.AppendJob? && tx.job.body.Authorized?
    requires RecordKnown(db.books, tx) && ReadKnown(db.books, tx, taken)
    ensures var b2 := Written(db.books, tx);
            Owed(b2, m) - LiveTotal(b2.records, m) ==
            Owed(db.books, m) - LiveTotal(db.books.records, m) + if m == MandateOfTx(tx) then taken else 0
  {
    hide LiveTotal;
    LiveInsert(db.books, tx.job.ctx, NewRecord(tx.job.ctx, tx.job.body.mandate, tx.job.body.cart), m);
  }

  lemma MoveLosesNothing(db: Db, tx: Tx, m: MandateId)
    requires tx.pc.Write? && tx.job.AppendJob? && !tx.job.body.Authorized?
    requires RecordKnown(db.books, tx) && TipKnown(db, tx)
    ensures var b2 := Written(db.books, tx);
            Owed(b2, m) - LiveTotal(b2.records, m) == Owed(db.books, m) - LiveTotal(db.books.records, m)
  {
    hide LiveTotal, ChainOf;
    var ctx, body := tx.job.ctx, tx.job.body;
    if !body.Denied? {
      MovesKeepLiveness(db.books.records[ctx].state, body);
      LiveChange(db.books, ctx, Advance(db.books.records[ctx], body), m);
    }
  }

  lemma ActLoses(h: string -> int, so: seq<Action>, a: Action, m: MandateId)
    ensures var b, b2 := Exec(h, so).db.books, Act(h, Exec(h, so), a).db.books;
            Owed(b2, m) - LiveTotal(b2.records, m) == Owed(b, m) - LiveTotal(b.records, m) + LostBy(h, so, a, m)
  {
    hide Exec, Act, LocksOk, DbOk, RefusalsKnown, VelocityKnown, RevocationKnown, NonceKnown, NumberKnown, TipKnown,
      RecordKnown, ReadKnown, LiveTotal, Written, Fits, TakenSince, Owed;
    EveryScheduleOk(h, so);
    var s := Exec(h, so);
    ActTables(h, s, a);
    OwedTables(s.db, m);
    if a.Go? && a.tid in s.txs && s.txs[a.tid].pc.Write? {
      var tx := s.txs[a.tid];
      FitsJobs(tx);
      if tx.job.body.Authorized? {
        ReadsKnown(h, so, a.tid);
        GrantLoses(s.db, tx, TakenSince(h, so, a.tid, MandateOfTx(tx)), m);
      } else {
        MoveLosesNothing(s.db, tx, m);
      }
    }
  }

  lemma OwedTables(db: Db, m: MandateId)
    ensures forall id :: Owed(RevokeDb(db, id).books, m) == Owed(db.books, m)
  {
  }

  /** In every schedule, what is reserved is what is live, plus what was lost. */
  lemma {:induction false} ReservedIsLiveAndLost(h: string -> int, schedule: seq<Action>, m: MandateId)
    ensures var b := Exec(h, schedule).db.books; Owed(b, m) == LiveTotal(b.records, m) + Lost(h, schedule, m)
  {
    hide Act, Owed, LiveTotal, LostBy;
    if schedule == [] {
      NothingOwed(m);
    } else {
      ReservedIsLiveAndLost(h, DropLast(schedule), m);
      ActLoses(h, DropLast(schedule), Last(schedule), m);
    }
  }

  lemma NothingOwed(m: MandateId)
    ensures Owed(FRESH.db.books, m) == 0 && LiveTotal(FRESH.db.books.records, m) == 0
  {
    assert LiveAmounts(FRESH.db.books.records, m) == map[];
  }

  // ----- exactly when nothing is lost -----

  /** With no negative amounts, releases only lower a row. */
  lemma GivenBackNonNegative(h: string -> int, so: seq<Action>, a: Action, m: MandateId)
    requires AllPayableActions(so)
    ensures GivenBack(Exec(h, so), a, m) >= 0
  {
    hide Exec, Run, AllPayable, BudgetsKnown, NeverCorrupt, SameLog, NoSmaller;
    EveryScheduleRefines(h, so);
  }

  lemma {:induction false} TakenNonNegative(h: string -> int, schedule: seq<Action>, t: nat, m: MandateId)
    requires AllPayableActions(schedule)
    ensures TakenSince(h, schedule, t, m) >= 0
  {
    hide Exec, GivenBack, ReadsRow, PayableAction;
    if schedule != [] {
      TakenNonNegative(h, DropLast(schedule), t, m);
      GivenBackNonNegative(h, DropLast(schedule), Last(schedule), m);
    }
  }

  lemma PastBefore(h: string -> int, s: Pg, a: Action, t: nat)
    requires AllFit(s) && t in Act(h, s, a).txs && PastCheck(Act(h, s, a).txs[t], 5) && !ReadsRow(s, a, t)
    ensures t in s.txs && PastCheck(s.txs[t], 5)
  {
    hide MoveOf, UnlockAll, Fits;
    if a.Go? && a.tid == t && t in s.txs && MoveOf(h, s.db, s.locks, t, s.txs[t]).Next? {
      MoveKeepsRead(h, s.db, s.locks, t, s.txs[t]);
    }
  }

  /** When a transaction past its reading read. */
  lemma {:induction false} ReadAt(h: string -> int, schedule: seq<Action>, t: nat) returns (i: nat)
    requires t in Exec(h, schedule).txs && PastCheck(Exec(h, schedule).txs[t], 5)
    ensures i < |schedule| && ReadsRow(Exec(h, schedule[..i]), schedule[i], t)
  {
    hide Act, ReadsRow, PastCheck;
    if schedule == [] {
      assert false;
    } else {
      var front := DropLast(schedule);
      assert schedule[..|front|] == front;
      if ReadsRow(Exec(h, front), Last(schedule), t) {
        i := |front|;
      } else {
        PastBefore(h, Exec(h, front), Last(schedule), t);
        i := ReadAt(h, front, t);
        assert schedule[..i] == front[..i];
      }
    }
  }

  /** `t` reads the row at `i`, and something is given back to `m` later, at `j`. */
  predicate TakenAt(h: string -> int, schedule: seq<Action>, t: nat, m: MandateId, i: nat, j: nat) {
    && i < j < |schedule|
    && ReadsRow(Exec(h, schedule[..i]), schedule[i], t)
    && GivenBack(Exec(h, schedule[..j]), schedule[j], m) > 0
  }

  lemma TakenInFront(h: string -> int, front: seq<Action>, a: Action, t: nat, m: MandateId, i: nat, j: nat)
    requires i < j < |front|
    ensures TakenAt(h, front, t, m, i, j) <==> TakenAt(h, front + [a], t, m, i, j)
  {
    hide Exec, ReadsRow, GivenBack;
    assert (front + [a])[..i] == front[..i] && (front + [a])[..j] == front[..j];
  }

  lemma {:induction false} TakenWhen(
    h: string -> int, schedule: seq<Action>, t: nat, m: MandateId) returns (i: nat, j: nat)
    requires t in Exec(h, schedule).txs && PastCheck(Exec(h, schedule).txs[t], 5)
    requires TakenSince(h, schedule, t, m) > 0
    ensures TakenAt(h, schedule, t, m, i, j)
  {
    hide Act, ReadsRow, PastCheck, GivenBack;
    var front, a := DropLast(schedule), Last(schedule);
    assert schedule == front + [a] && schedule[..|front|] == front;
    PastBefore(h, Exec(h, front), a, t);
    if TakenSince(h, front, t, m) > 0 {
      i, j := TakenWhen(h, front, t, m);
      TakenInFront(h, front, a, t, m, i, j);
    } else {
      i := ReadAt(h, front, t);
      j := |front|;
      assert schedule[..i] == front[..i];
    }
  }

  lemma ActPlaces(h: string -> int, s: Pg, a: Action, t: nat)
    requires AllFit(s) && t in s.txs
    ensures t in Act(h, s, a).txs && Place(Act(h, s, a).txs[t].pc) >= Place(s.txs[t].pc)
    ensures ReadsRow(s, a, t) ==> Place(Act(h, s, a).txs[t].pc) > 5
  {
    hide MoveOf, UnlockAll, Fits;
    if a.Go? && a.tid == t {
      var move := MoveOf(h, s.db, s.locks, t, s.txs[t]);
      match move
      case Next(_, _, _) => MoveAdvances(h, s.db, s.locks, t, s.txs[t]);
      case Wait => WaitIsNoCommit(h, s.db, s.locks, t, s.txs[t]);
      case End(_, answer) => PlaceBounded(s.txs[t].pc);
    }
    PlaceBounded(s.txs[t].pc);
  }

  /** A transaction reads the row once. */
  lemma {:induction false} ReadOnce(h: string -> int, schedule: seq<Action>, t: nat, i: nat)
    requires i < |schedule| && ReadsRow(Exec(h, schedule[..i]), schedule[i], t)
    ensures t in Exec(h, schedule).txs && Place(Exec(h, schedule).txs[t].pc) > 5
  {
    hide Act, Place;
    var front := DropLast(schedule);
    assert schedule[..|front|] == front;
    if i < |front| {
      assert schedule[..i] == front[..i];
      ReadOnce(h, front, t, i);
    }
    ActPlaces(h, Exec(h, front), Last(schedule), t);
  }

  lemma {:induction false} TakenCounts(h: string -> int, schedule: seq<Action>, t: nat, m: MandateId, i: nat, j: nat)
    requires AllPayableActions(schedule) && TakenAt(h, schedule, t, m, i, j)
    ensures TakenSince(h, schedule, t, m) > 0
  {
    hide Exec, PayableAction;
    var front, a := DropLast(schedule), Last(schedule);
    assert schedule == front + [a] && schedule[..|front|] == front && schedule[..i] == front[..i];
    TakenNonNegative(h, front, t, m);
    GivenBackNonNegative(h, front, a, m);
    ReadOnce(h, front, t, i);
    if j < |front| {
      TakenInFront(h, front, a, t, m, i, j);
      TakenCounts(h, front, t, m, i, j);
    }
  }

  /** A release under `m`, of a positive amount, commits at `j`, after an authorization under
      `m` read the row at `i` and before it commits at `k`. */
  predicate Overwrites(h: string -> int, schedule: seq<Action>, m: MandateId, i: nat, j: nat, k: nat) {
    && k < |schedule| && schedule[k].Go? && j < k
    && Grants(Exec(h, schedule[..k]), schedule[k], m)
    && TakenAt(h, schedule[..k], schedule[k].tid, m, i, j)
  }

  ghost predicate Overwritten(h: string -> int, schedule: seq<Action>, m: MandateId) {
    exists i: nat, j: nat, k: nat :: Overwrites(h, schedule, m, i, j, k)
  }

  lemma GrantIsPast(s: Pg, a: Action, m: MandateId)
    requires Grants(s, a, m)
    ensures a.Go? && a.tid in s.txs && PastCheck(s.txs[a.tid], 5)
  {
  }

  lemma LostByIff(h: string -> int, so: seq<Action>, a: Action, m: MandateId)
    requires AllPayableActions(so)
    ensures LostBy(h, so, a, m) >= 0
    ensures LostBy(h, so, a, m) > 0 <==>
            Grants(Exec(h, so), a, m) && exists i: nat, j: nat :: TakenAt(h, so, a.tid, m, i, j)
  {
    hide Exec, TakenSince, TakenAt, Grants, PastCheck, PayableAction;
    if Grants(Exec(h, so), a, m) {
      GrantIsPast(Exec(h, so), a, m);
      TakenNonNegative(h, so, a.tid, m);
      if TakenSince(h, so, a.tid, m) > 0 {
        var i, j := TakenWhen(h, so, a.tid, m);
      }
      forall i: nat, j: nat | TakenAt(h, so, a.tid, m, i, j)
        ensures TakenSince(h, so, a.tid, m) > 0
      {
        TakenCounts(h, so, a.tid, m, i, j);
      }
    }
  }

  lemma OverwritesInFront(h: string -> int, front: seq<Action>, a: Action, m: MandateId, i: nat, j: nat, k: nat)
    requires k < |front|
    ensures Overwrites(h, front, m, i, j, k) <==> Overwrites(h, front + [a], m, i, j, k)
  {
    hide Exec, Grants, TakenAt;
    assert (front + [a])[..k] == front[..k];
  }

  lemma OverwrittenSnoc(h: string -> int, front: seq<Action>, a: Action, m: MandateId)
    requires AllPayableActions(front)
    ensures Overwritten(h, front + [a], m) <==> Overwritten(h, front, m) || LostBy(h, front, a, m) > 0
  {
    hide Exec, Grants, TakenAt, LostBy, PayableAction;
    var all := front + [a];
    assert all[..|front|] == front;
    LostByIff(h, front, a, m);
    if LostBy(h, front, a, m) > 0 {
      var i: nat, j: nat :| TakenAt(h, front, a.tid, m, i, j);
      LostIsOverwrite(h, front, a, m, i, j);
    }
    forall i: nat, j: nat, k: nat
      ensures k < |front| ==> (Overwrites(h, front, m, i, j, k) <==> Overwrites(h, all, m, i, j, k))
    {
      if k < |front| {
        OverwritesInFront(h, front, a, m, i, j, k);
      }
    }
  }

  lemma LostIsOverwrite(h: string -> int, front: seq<Action>, a: Action, m: MandateId, i: nat, j: nat)
    requires Grants(Exec(h, front), a, m) && TakenAt(h, front, a.tid, m, i, j)
    ensures Overwrites(h, front + [a], m, i, j, |front|)
  {
    hide Exec, GivenBack, ReadsRow;
    assert (front + [a])[..|front|] == front;
  }

  lemma {:induction false} LostExactly(h: string -> int, schedule: seq<Action>, m: MandateId)
    requires AllPayableActions(schedule)
    ensures Lost(h, schedule, m) >= 0
    ensures Lost(h, schedule, m) > 0 <==> Overwritten(h, schedule, m)
  {
    hide Exec, Overwrites, LostBy, PayableAction;
    if schedule == [] {
      NoneOverwritten(h, m);
    } else {
      var front, a := DropLast(schedule), Last(schedule);
      assert schedule == front + [a];
      LostExactly(h, front, m);
      LostByIff(h, front, a, m);
      OverwrittenSnoc(h, front, a, m);
    }
  }

  lemma NoneOverwritten(h: string -> int, m: MandateId)
    ensures !Overwritten(h, [], m)
  {
    hide Exec;
  }

  /** What is reserved against a mandate is never below what is live, and is exactly what is
      live if and only if no release of a positive amount under it commits between the reading
      and the commit of an authorization under it that itself commits. */
  lemma ConservedExactly(h: string -> int, schedule: seq<Action>, m: MandateId)
    requires AllPayableActions(schedule)
    ensures var b := Exec(h, schedule).db.books;
            && Owed(b, m) >= LiveTotal(b.records, m)
            && (Owed(b, m) == LiveTotal(b.records, m) <==> !Overwritten(h, schedule, m))
  {
    hide Exec, Lost, Overwritten, Owed, LiveTotal, PayableAction;
    ReservedIsLiveAndLost(h, schedule, m);
    LostExactly(h, schedule, m);
  }
}
