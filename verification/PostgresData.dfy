/** What the PostgreSQL store's locks protect: everything a transaction read before the
    log lock is still true when it commits, except a reservation that shrank. */
module PostgresData {
  import opened Prelude
  import opened Domain
  import opened Lifecycle
  import opened Events
  import opened Evidence
  import opened Bookkeeping
  import opened StoreRuns
  import opened StoreClaims
  import opened Postgres
  import opened PostgresLocks

  /** An append transaction that has executed the statement at `place`. */
  predicate Past(tx: Tx, place: nat) {
    IsOpen(tx) && tx.job.AppendJob? && Place(tx.pc) > place
  }

  predicate PastCheck(tx: Tx, place: nat) {
    Past(tx, place) && tx.job.body.Authorized?
  }

  // ----- what each statement learned, by what protects it -----

  /** Under the context's lock: the record, and that the step from it is legal. */
  predicate RecordKnown(b: Books, tx: Tx) {
    Past(tx, 2) ==> tx.existing == Get(b.records, tx.job.ctx) && LegalStep(b, tx.job.ctx, tx.job.body)
  }

  /** Under the context's lock: how many refusals it has. */
  predicate RefusalsKnown(events: seq<Event>, tx: Tx) {
    Past(tx, 3) && tx.job.body.Denied? ==> Denials(ChainOf(events, tx.job.ctx)) < DENIAL_CAP
  }

  /** Under the mandate's lock: that it is not revoked. */
  predicate RevocationKnown(b: Books, tx: Tx) {
    PastCheck(tx, 3) ==> tx.job.body.mandate.body.id !in b.revoked
  }

  /** Under the mandate's lock: that its rate allows one more. */
  predicate VelocityKnown(b: Books, tx: Tx) {
    PastCheck(tx, 4) ==>
      VelocityRefusal(b, tx.job.body.mandate.body.id, tx.job.body.mandate.body.scope.velocity, tx.job.at).None?
  }

  /** By its uncommitted row, or by a committed one: that the nonce is this context's. And
      before that, from having met a committed row: that it is taken. */
  predicate NonceKnown(b: Books, tx: Tx) {
    && (Past(tx, 5) && tx.job.body.Paid? ==>
          if tx.claimed then NonceOf(tx.job.body) !in b.nonces
          else NonceOf(tx.job.body) in b.nonces && b.nonces[NonceOf(tx.job.body)] == tx.job.ctx)
    && (tx.pc.ReadOwner? && tx.job.AppendJob? ==> NonceOf(tx.job.body) in b.nonces)
  }

  /** Under the log lock: that the number drawn is the highest. */
  predicate NumberKnown(db: Db, tx: Tx) {
    Past(tx, 7) ==> TipSeq(db.events) < tx.seqNo <= db.counter
  }

  /** Under the log lock: the hash the chain ends in, and what a release leaves. */
  predicate TipKnown(db: Db, tx: Tx) {
    && (Past(tx, 8) ==> tx.prev == Tip(ChainOf(db.events, tx.job.ctx)))
    && (Past(tx, 9) && Releases(tx.job.body) ==>
          && tx.existing.Some?
          && Release(db.books, tx.existing.value.mandateId, tx.existing.value.amount) == Ok(tx.left))
  }

  predicate TxKnown(db: Db, tx: Tx) {
    && RecordKnown(db.books, tx)
    && RefusalsKnown(db.events, tx)
    && RevocationKnown(db.books, tx)
    && VelocityKnown(db.books, tx)
    && NonceKnown(db.books, tx)
    && NumberKnown(db, tx)
    && TipKnown(db, tx)
  }

  ghost predicate AllKnown(s: Pg) {
    forall t :: t in s.txs ==> TxKnown(s.db, s.txs[t])
  }

  // ----- a transaction's own statements -----

  lemma EarlyKnown(h: string -> int, db: Db, locks: Locks, t: nat, tx: Tx)
    requires Fits(tx) && ClaimOk(tx) && TxKnown(db, tx) && Place(tx.pc) < 6
    requires MoveOf(h, db, locks, t, tx).Next?
    ensures TxKnown(MoveOf(h, db, locks, t, tx).db, MoveOf(h, db, locks, t, tx).tx)
  {
    hide ChainOf, Denials, DecideBudget, VelocityRefusal, Release, CanTransition, MoveRelease;
    match tx.pc
    case WantContext =>
    case WantMandate =>
    case ReadRecord =>
    case ReadRevoked =>
    case ReadVelocity =>
    case ReadReserved =>
    case ClaimNonce =>
    case ReadOwner =>
    case CountRefusals =>
  }

  lemma LateKnown(h: string -> int, db: Db, locks: Locks, t: nat, tx: Tx)
    requires Fits(tx) && ClaimOk(tx) && TxKnown(db, tx) && Place(tx.pc) >= 6
    requires TipSeq(db.events) <= db.counter
    requires MoveOf(h, db, locks, t, tx).Next?
    ensures TxKnown(MoveOf(h, db, locks, t, tx).db, MoveOf(h, db, locks, t, tx).tx)
  {
    hide ChainOf, Denials, VelocityRefusal, Release, CanTransition, MoveDecide, MoveNonce, MoveReadRecord;
    match tx.pc
    case WantLog =>
    case DrawSeq =>
    case ReadPrevious =>
    case ReadRelease =>
  }

  lemma NextKnown(h: string -> int, db: Db, locks: Locks, t: nat, tx: Tx)
    requires Fits(tx) && ClaimOk(tx) && TxKnown(db, tx) && TipSeq(db.events) <= db.counter
    requires MoveOf(h, db, locks, t, tx).Next?
    ensures TxKnown(MoveOf(h, db, locks, t, tx).db, MoveOf(h, db, locks, t, tx).tx)
  {
    hide MoveOf, TxKnown, Fits;
    if Place(tx.pc) < 6 {
      EarlyKnown(h, db, locks, t, tx);
    } else {
      LateKnown(h, db, locks, t, tx);
    }
  }

  // ----- other transactions' commits -----

  predicate HoldsMandate(tx: Tx, m: MandateId) {
    IsOpen(tx) && Place(tx.pc) > 1 && MandateKey(tx.job) == Some(m)
  }

  /** Two transactions never hold the same lock. */
  ghost predicate Apart(a: Tx, b: Tx) {
    && (Past(a, 0) && Past(b, 0) ==> a.job.ctx != b.job.ctx)
    && (forall m :: !(HoldsMandate(a, m) && HoldsMandate(b, m)))
    && !(Past(a, 6) && Past(b, 6))
    && (Past(a, 0) && Past(b, 0) && a.claimed && b.claimed ==> NonceOf(a.job.body) != NonceOf(b.job.body))
  }

  lemma OneHolder<K(!new)>(locks: map<K, nat>, keys: map<nat, Option<K>>, t: nat, u: nat)
    requires Owned(locks, keys) && t in keys && u in keys && t != u && keys[t].Some? && keys[u].Some?
    ensures keys[t] != keys[u]
  {
  }

  lemma LocksKeepApart(h: string -> int, s: Pg, t: nat, u: nat)
    requires LocksOk(h, s) && ClaimsOk(s) && t in s.txs && u in s.txs && t != u
    ensures Apart(s.txs[t], s.txs[u])
  {
    hide Owned;
    var a, b := s.txs[t], s.txs[u];
    if ContextKey(h, a).Some? && ContextKey(h, b).Some? {
      OneHolder(s.locks.contexts, ContextKeys(h, s.txs), t, u);
    }
    if MandateLock(h, a).Some? && MandateLock(h, b).Some? {
      OneHolder(s.locks.mandates, MandateKeys(h, s.txs), t, u);
    }
    if LogKey(a).Some? && LogKey(b).Some? {
      OneHolder(s.locks.log, LogKeys(s.txs), t, u);
    }
    if NonceKey(a).Some? && NonceKey(b).Some? {
      OneHolder(s.locks.nonces, NonceKeys(s.txs), t, u);
    }
  }

  lemma WriteKeepsRecord(db: Db, a: Tx, b: Tx)
    requires Apart(a, b) && a.pc.Write? && a.job.AppendJob? && RecordKnown(db.books, b) && RefusalsKnown(db.events, b)
    ensures RecordKnown(WriteDb(db, a).books, b) && RefusalsKnown(WriteDb(db, a).events, b)
  {
    hide CanTransition, NewRecord, Advance;
    if Past(b, 0) {
      ChainOfSnoc(db.events, EventOf(a), b.job.ctx);
    }
  }

  lemma WriteKeepsMandate(db: Db, a: Tx, b: Tx)
    requires Apart(a, b) && a.pc.Write? && a.job.AppendJob?
    requires RevocationKnown(db.books, b) && VelocityKnown(db.books, b)
    ensures RevocationKnown(WriteDb(db, a).books, b) && VelocityKnown(WriteDb(db, a).books, b)
  {
    hide CountSince, NewRecord, Advance;
    if PastCheck(b, 3) && a.job.body.Authorized? {
      assert HoldsMandate(b, b.job.body.mandate.body.id);
      assert HoldsMandate(a, a.job.body.mandate.body.id);
    }
  }

  lemma WriteKeepsNonce(db: Db, a: Tx, b: Tx)
    requires Apart(a, b) && a.pc.Write? && a.job.AppendJob? && ClaimOk(a) && ClaimOk(b)
    requires NonceKnown(db.books, a) && NonceKnown(db.books, b)
    ensures NonceKnown(WriteDb(db, a).books, b)
  {
  }

  lemma WriteKeeps(db: Db, a: Tx, b: Tx)
    requires Apart(a, b) && a.pc.Write? && a.job.AppendJob? && ClaimOk(a) && ClaimOk(b)
    requires TxKnown(db, a) && TxKnown(db, b)
    ensures TxKnown(WriteDb(db, a), b)
  {
    hide WriteDb, RecordKnown, RefusalsKnown, RevocationKnown, VelocityKnown, NonceKnown, ClaimOk;
    WriteKeepsRecord(db, a, b);
    WriteKeepsMandate(db, a, b);
    WriteKeepsNonce(db, a, b);
  }

  lemma RevokeKeeps(db: Db, a: Tx, b: Tx)
    requires Apart(a, b) && a.pc.WriteRevocation? && a.job.RevokeJob? && TxKnown(db, b)
    ensures TxKnown(RevokeDb(db, a.job.mandate), b)
  {
    hide CanTransition, CountSince, CheckedSub, ChainOf, Denials;
    assert HoldsMandate(a, a.job.mandate);
    if PastCheck(b, 3) {
      assert HoldsMandate(b, b.job.body.mandate.body.id);
    }
  }

  /** A statement that ends nothing changes no table. */
  lemma MoveKeepsTables(h: string -> int, db: Db, locks: Locks, t: nat, tx: Tx)
    requires Fits(tx)
    ensures match MoveOf(h, db, locks, t, tx)
            case Wait => true
            case Next(db2, _, _) => db2 == db.(counter := db2.counter) && db2.counter >= db.counter
            case End(db2, _) =>
              db2 == if tx.pc.Write? then WriteDb(db, tx)
                     else if tx.pc.WriteRevocation? then RevokeDb(db, tx.job.mandate)
                     else db
  {
    hide DecideBudget, VelocityRefusal, CheckTransition, ChainOf, Release, ReservedOr, Denials, WriteDb, RevokeDb;
    match tx.pc
    case WantContext =>
    case _ =>
  }

  lemma CounterKeeps(db: Db, counter: nat, tx: Tx)
    requires TxKnown(db, tx) && counter >= db.counter
    ensures TxKnown(db.(counter := counter), tx)
  {
  }

  /** Whatever one transaction does next, the others' knowledge stands. */
  lemma MoveKeepsOthers(h: string -> int, db: Db, locks: Locks, t: nat, a: Tx, b: Tx)
    requires Fits(a) && Apart(a, b) && ClaimOk(a) && ClaimOk(b) && TxKnown(db, a) && TxKnown(db, b)
    ensures !MoveOf(h, db, locks, t, a).Wait? ==> TxKnown(MoveOf(h, db, locks, t, a).db, b)
  {
    hide TxKnown, MoveOf, WriteDb, RevokeDb, ClaimOk, Apart;
    MoveKeepsTables(h, db, locks, t, a);
    match MoveOf(h, db, locks, t, a)
    case Wait =>
    case Next(db2, _, _) => CounterKeeps(db, db2.counter, b);
    case End(_, _) =>
      if a.pc.Write? {
        WriteKeeps(db, a, b);
      } else if a.pc.WriteRevocation? {
        RevokeKeeps(db, a, b);
      }
  }

  // ----- the committed tables -----

  ghost predicate Ascending(events: seq<Event>) {
    && (forall i :: 0 <= i < |events| ==> 0 < events[i].seqNo)
    && (forall i, j :: 0 <= i < j < |events| ==> events[i].seqNo < events[j].seqNo)
  }

  /** A context's chain is intact, and its record is where its chain stands. */
  predicate ContextFine(db: Db, c: ContextId) {
    var chain, rec := ChainOf(db.events, c), Get(db.books.records, c);
    LifeOk(chain, rec) && ChainOk(c, chain, chain, rec, TipSeq(db.events))
  }

  ghost predicate Ledgered(events: seq<Event>, b: Books) {
    && AuthorizationsKept(events, b) && PaymentsKept(events, b)
    && PaymentsDistinct(events) && AuthorizationsDistinct(events)
  }

  ghost predicate TimesKept(events: seq<Event>, b: Books) {
    forall m :: TimesOf(b, m) == TimesUnder(events, m)
  }

  ghost predicate DbOk(db: Db) {
    && Ascending(db.events) && TipSeq(db.events) <= db.counter
    && (forall c :: ContextFine(db, c))
    && Ledgered(db.events, db.books)
    && TimesKept(db.events, db.books)
  }

  /** What `tx` writes is a lawful step of its context, as the in-memory store would record it. */
  lemma WriteRecorded(db: Db, tx: Tx)
    requires tx.pc.Write? && tx.job.AppendJob? && TxKnown(db, tx) && ClaimOk(tx)
    ensures Recorded(db.books, Written(db.books, tx), tx.job.ctx, tx.job.body)
    ensures TimesMove(db.books, Written(db.books, tx), tx.job.at, tx.job.body)
  {
    hide ChainOf, Denials, VelocityRefusal, Release, TimesOf, NextReserved;
  }

  lemma WriteContext(db: Db, tx: Tx)
    requires tx.pc.Write? && tx.job.AppendJob? && TxKnown(db, tx) && ClaimOk(tx)
    requires ContextFine(db, tx.job.ctx)
    ensures ContextFine(WriteDb(db, tx), tx.job.ctx)
  {
    hide LifeOk, Recorded, ChainOf, Written, RecordKnown, VelocityKnown, RevocationKnown, NonceKnown, Kept, Linked,
      Denials;
    WriteRecorded(db, tx);
    var c, e := tx.job.ctx, EventOf(tx);
    var chain, rec := ChainOf(db.events, c), Get(db.books.records, c);
    ChainOfSnoc(db.events, e, c);
    RecordsStep(db.books, Written(db.books, tx), e);
    LifeStep(chain, rec, e);
    ChainStep(c, chain, chain, rec, tx.seqNo - 1, e);
  }

  lemma WriteOtherContext(db: Db, tx: Tx, c: ContextId)
    requires tx.pc.Write? && tx.job.AppendJob? && TxKnown(db, tx) && ClaimOk(tx)
    requires ContextFine(db, c) && c != tx.job.ctx
    ensures ContextFine(WriteDb(db, tx), c)
  {
    hide LifeOk, Recorded, ChainOf, Written, RecordKnown, VelocityKnown, RevocationKnown, NonceKnown, Kept, Linked,
      Denials;
    WriteRecorded(db, tx);
    ChainOfSnoc(db.events, EventOf(tx), c);
    RecordsStep(db.books, Written(db.books, tx), EventOf(tx));
  }

  lemma WriteTimes(db: Db, tx: Tx)
    requires tx.pc.Write? && tx.job.AppendJob? && TxKnown(db, tx) && ClaimOk(tx) && TimesKept(db.events, db.books)
    ensures TimesKept(WriteDb(db, tx).events, WriteDb(db, tx).books)
  {
    hide Recorded, TimesUnder, TxKnown, Written, VelocityRefusal;
    WriteRecorded(db, tx);
    forall m
      ensures TimesOf(WriteDb(db, tx).books, m) == TimesUnder(WriteDb(db, tx).events, m)
    {
      TimesUnderSnoc(db.events, EventOf(tx), m);
    }
  }

  lemma WriteAscends(db: Db, tx: Tx)
    requires tx.pc.Write? && tx.job.AppendJob? && NumberKnown(db, tx)
    requires Ascending(db.events) && TipSeq(db.events) <= db.counter
    ensures Ascending(WriteDb(db, tx).events) && TipSeq(WriteDb(db, tx).events) <= db.counter
  {
    hide Written;
  }

  lemma WriteOk(db: Db, tx: Tx)
    requires tx.pc.Write? && tx.job.AppendJob? && TxKnown(db, tx) && ClaimOk(tx) && DbOk(db)
    ensures DbOk(WriteDb(db, tx))
  {
    hide TxKnown, Ascending, ContextFine, TimesKept, AuthorizationsKept, PaymentsKept, PaymentsDistinct,
      AuthorizationsDistinct, Recorded, TimesMove, Written, ClaimOk;
    assert NumberKnown(db, tx) by { NumberFromTx(db, tx); }
    WriteAscends(db, tx);
    WriteRecorded(db, tx);
    RecordedSpends(db.events, db.books, Written(db.books, tx), EventOf(tx));
    WriteTimes(db, tx);
    forall c
      ensures ContextFine(WriteDb(db, tx), c)
    {
      if c == tx.job.ctx {
        WriteContext(db, tx);
      } else {
        WriteOtherContext(db, tx, c);
      }
    }
  }

  lemma NumberFromTx(db: Db, tx: Tx)
    requires TxKnown(db, tx)
    ensures NumberKnown(db, tx)
  {
  }

  lemma RevokeOk(db: Db, mandate: MandateId)
    requires DbOk(db)
    ensures DbOk(RevokeDb(db, mandate))
  {
    hide LifeOk, ChainOk, ChainOf, Ascending, PaymentsDistinct, AuthorizationsDistinct;
    forall c
      ensures ContextFine(RevokeDb(db, mandate), c)
    {
      assert ContextFine(db, c);
    }
    forall m
      ensures TimesOf(RevokeDb(db, mandate).books, m) == TimesUnder(RevokeDb(db, mandate).events, m)
    {
      assert TimesOf(db.books, m) == TimesUnder(db.events, m);
    }
  }

  lemma DrawOk(db: Db, counter: nat)
    requires DbOk(db) && counter >= db.counter
    ensures DbOk(db.(counter := counter))
  {
    hide LifeOk, ChainOk, ChainOf, Ascending, Ledgered, TimesKept;
    forall c
      ensures ContextFine(db.(counter := counter), c)
    {
      assert ContextFine(db, c);
    }
  }

  // ----- every interleaving -----

  ghost predicate PgOk(h: string -> int, s: Pg) {
    LocksOk(h, s) && ClaimsOk(s) && AllKnown(s) && DbOk(s.db)
  }

  lemma ClosedKnown(db: Db, tx: Tx)
    requires !IsOpen(tx)
    ensures TxKnown(db, tx)
  {
  }

  lemma MoveDbOk(h: string -> int, s: Pg, t: nat)
    requires PgOk(h, s) && t in s.txs && Fits(s.txs[t])
    ensures var move := MoveOf(h, s.db, s.locks, t, s.txs[t]); !move.Wait? ==> DbOk(move.db)
  {
    hide LocksOk, DbOk, TxKnown, MoveOf, WriteDb, RevokeDb, ClaimOk;
    var tx := s.txs[t];
    MoveKeepsTables(h, s.db, s.locks, t, tx);
    match MoveOf(h, s.db, s.locks, t, tx)
    case Wait =>
    case Next(db2, _, _) => DrawOk(s.db, db2.counter);
    case End(_, _) =>
      if tx.pc.Write? {
        WriteOk(s.db, tx);
      } else if tx.pc.WriteRevocation? {
        RevokeOk(s.db, tx.job.mandate);
      }
  }

  lemma TipBounded(db: Db)
    requires DbOk(db)
    ensures TipSeq(db.events) <= db.counter
  {
  }

  lemma GoKnown(h: string -> int, s: Pg, t: nat)
    requires AllFit(s) && PgOk(h, s) && t in s.txs
    ensures AllKnown(Act(h, s, Go(t)))
  {
    hide LocksOk, DbOk, TxKnown, MoveOf, ClaimOk, UnlockAll, Apart, Fits;
    var tx := s.txs[t];
    TipBounded(s.db);
    var move := MoveOf(h, s.db, s.locks, t, tx);
    forall u | u in s.txs && u != t
      ensures !move.Wait? ==> TxKnown(move.db, s.txs[u])
    {
      LocksKeepApart(h, s, t, u);
      MoveKeepsOthers(h, s.db, s.locks, t, tx, s.txs[u]);
    }
    match move
    case Wait =>
    case Next(_, _, _) => NextKnown(h, s.db, s.locks, t, tx);
    case End(db, answer) => ClosedKnown(db, tx.(pc := Closed(answer)));
  }

  lemma OpenKnown(db: Db, job: Job)
    ensures TxKnown(db, OpenTx(job))
  {
  }

  lemma ActOk(h: string -> int, s: Pg, a: Action)
    requires AllFit(s) && PgOk(h, s)
    ensures PgOk(h, Act(h, s, a))
  {
    hide LocksOk, DbOk, TxKnown, MoveOf, ClaimOk, UnlockAll, Fits;
    ActLocks(h, s, a);
    match a
    case Open(t, job) => OpenKnown(s.db, job);
    case Go(t) =>
      if t in s.txs {
        MoveDbOk(h, s, t);
        GoKnown(h, s, t);
      }
    case Abort(t) =>
      if t in s.txs {
        ClosedKnown(s.db, s.txs[t].(pc := Closed(RolledBack)));
      }
  }

  lemma StartOk(h: string -> int)
    ensures PgOk(h, FRESH)
  {
  }

  lemma {:induction false} EveryScheduleOk(h: string -> int, schedule: seq<Action>)
    ensures PgOk(h, Exec(h, schedule))
  {
    hide PgOk, Act;
    if schedule == [] {
      StartOk(h);
    } else {
      EveryScheduleOk(h, DropLast(schedule));
      ActOk(h, Exec(h, DropLast(schedule)), Last(schedule));
    }
  }
}
