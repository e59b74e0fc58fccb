/** The PostgreSQL store's append and revoke transactions (ml-store-postgres: store), as
    statements that interleave freely at read-committed isolation. A transaction's writes
    are private until it commits, so they are applied in its committing step; locks, the
    nonce claim and the sequence are visible at once. */
module Postgres {
  import opened Prelude
  import opened Domain
  import opened Events
  import opened Evidence
  import opened Bookkeeping
  import opened StoreRuns

  datatype Job =
    | AppendJob(ctx: ContextId, at: Time, body: EventBody)
    | RevokeJob(mandate: MandateId)

  datatype Answer =
    | Committed
    | Refused(outcome: AppendOutcome)
    | Failed(error: StoreError)
    | RolledBack

  /** The statement a transaction executes next. */
  datatype Pc =
    | WantContext
    | WantMandate
    | ReadRecord
    | ReadRevoked
    | ReadVelocity
    | ReadReserved
    | ClaimNonce
    | ReadOwner
    | CountRefusals
    | WantLog
    | DrawSeq
    | ReadPrevious
    | ReadRelease
    | Write
    | WriteRevocation
    | Closed(answer: Answer)

  /** A transaction: its job, where it is, and what it has read or claimed so far. */
  datatype Tx = Tx(
    job: Job,
    pc: Pc,
    existing: Option<Record>,
    read: Money,
    claimed: bool,
    seqNo: nat,
    prev: Hash,
    left: Money)

  /** The committed tables (in `books`; its `windows` are not a table and stay empty), the
      committed log, and the sequence, which no rollback takes back. */
  datatype Db = Db(books: Books, events: seq<Event>, counter: nat)

  /** Who holds what. Advisory locks are keyed by a hash, so two ids may share one lock;
      nonces are rows inserted but not yet committed. */
  datatype Locks = Locks(
    contexts: map<int, nat>, mandates: map<int, nat>, log: map<int, nat>, nonces: map<(string, string), nat>)

  datatype Pg = Pg(db: Db, locks: Locks, txs: map<nat, Tx>)

  const FRESH: Pg := Pg(Db(EMPTY.books, [], 0), Locks(map[], map[], map[], map[]), map[])

  const LOG_KEY: int := 0

  function OpenTx(job: Job): Tx {
    Tx(job, if job.AppendJob? then WantContext else WantMandate, None, Zero(""), false, 0, Anchor, Zero(""))
  }

  predicate IsOpen(tx: Tx) {
    !tx.pc.Closed?
  }

  function NonceOf(body: EventBody): (string, string) {
    if body.Paid? then (body.rail, body.nonce) else ("", "")
  }

  /** The mandate whose lock a job takes, if it takes one. */
  function MandateKey(job: Job): Option<MandateId> {
    match job
    case RevokeJob(m) => Some(m)
    case AppendJob(_, _, body) => if body.Authorized? then Some(body.mandate.body.id) else None
  }

  // ----- one statement -----

  /** What a statement does: wait, go on to the next statement, or end the transaction. */
  datatype Move = Wait | Next(db: Db, locks: Locks, tx: Tx) | End(db: Db, answer: Answer)

  function AfterRecord(body: EventBody): Pc {
    if body.Authorized? then ReadRevoked
    else if body.Paid? then ClaimNonce
    else if body.Denied? then CountRefusals
    else WantLog
  }

  function MoveReadRecord(db: Db, locks: Locks, tx: Tx): Move
    requires tx.job.AppendJob?
  {
    var ctx, body := tx.job.ctx, tx.job.body;
    var to := ResultingState(body);
    var illegal := if to.None? then None else CheckTransition(db.books, ctx, to.value);
    if illegal.Some? then End(db, Failed(illegal.value))
    else Next(db, locks, tx.(existing := Get(db.books.records, ctx), pc := AfterRecord(body)))
  }

  /** The statements of an authorization's decision. */
  function MoveDecide(db: Db, locks: Locks, tx: Tx): Move
    requires tx.job.AppendJob? && tx.job.body.Authorized?
  {
    var body := tx.job.body;
    var id := body.mandate.body.id;
    match tx.pc
    case ReadRevoked =>
      if id in db.books.revoked then End(db, Refused(AppendOutcome.MandateRevoked))
      else Next(db, locks, tx.(pc := ReadVelocity))
    case ReadVelocity =>
      var fast := VelocityRefusal(db.books, id, body.mandate.body.scope.velocity, tx.job.at);
      if fast.Some? then End(db, Refused(fast.value)) else Next(db, locks, tx.(pc := ReadReserved))
    case _ =>
      match DecideBudget(db.books, tx.job.ctx, body.mandate, body.cart)
      case Err(e) => End(db, Failed(e))
      case Ok(Refuse(outcome)) => End(db, Refused(outcome))
      case Ok(Proceed(_)) =>
        Next(db, locks, tx.(read := ReservedOr(db.books, id, body.cart.claims.total.currency), pc := WantLog))
  }

  /** Insert the nonce row, or wait for whoever is inserting it; then, if it was already
      there, read whose it is. */
  function MoveNonce(db: Db, locks: Locks, t: nat, tx: Tx): Move
    requires tx.job.AppendJob?
  {
    var key := NonceOf(tx.job.body);
    if tx.pc.ClaimNonce? then
      if key in db.books.nonces then Next(db, locks, tx.(pc := ReadOwner))
      else if key in locks.nonces then Wait
      else Next(db, locks.(nonces := locks.nonces[key := t]), tx.(claimed := true, pc := WantLog))
    else if key in db.books.nonces && db.books.nonces[key] == tx.job.ctx then Next(db, locks, tx.(pc := WantLog))
    else End(db, Refused(AppendOutcome.NonceAlreadyUsed))
  }

  function MoveRelease(db: Db, locks: Locks, tx: Tx): Move {
    if tx.existing.None? then End(db, Failed(Corrupt(NoRecord)))
    else
      match Release(db.books, tx.existing.value.mandateId, tx.existing.value.amount)
      case Err(e) => End(db, Failed(e))
      case Ok(left) => Next(db, locks, tx.(left := left, pc := Write))
  }

  /** The reservation row an authorization writes: the value it read, plus its amount. */
  function NextReserved(tx: Tx): Money
    requires tx.job.AppendJob? && tx.job.body.Authorized?
  {
    var sum := CheckedAdd(tx.read, tx.job.body.cart.claims.total);
    if sum.Ok? then sum.value else tx.read
  }

  /** The committed tables after the transaction's writes. */
  function Written(b: Books, tx: Tx): Books
    requires tx.job.AppendJob?
  {
    var ctx, at, body := tx.job.ctx, tx.job.at, tx.job.body;
    match body
    case Authorized(mandate, cart, _) =>
      b.(reserved := b.reserved[mandate.body.id := NextReserved(tx)],
         authTimes := b.authTimes[mandate.body.id := TimesOf(b, mandate.body.id) + [at]],
         records := b.records[ctx := NewRecord(ctx, mandate, cart)])
    case Denied(_, _) => b
    case _ =>
      b.(reserved := if Releases(body) && tx.existing.Some? then b.reserved[tx.existing.value.mandateId := tx.left]
                     else b.reserved,
         nonces := if tx.claimed then b.nonces[NonceOf(body) := ctx] else b.nonces,
         records := if ctx in b.records then b.records[ctx := Advance(b.records[ctx], body)] else b.records)
  }

  function EventOf(tx: Tx): Event
    requires tx.job.AppendJob?
  {
    NewEvent(tx.prev, tx.seqNo, tx.job.ctx, tx.job.at, tx.job.body)
  }

  function WriteDb(db: Db, tx: Tx): Db
    requires tx.job.AppendJob?
  {
    db.(books := Written(db.books, tx), events := db.events + [EventOf(tx)])
  }

  function RevokeDb(db: Db, mandate: MandateId): Db {
    db.(books := db.books.(revoked := db.books.revoked + {mandate}))
  }

  /** Which positions a job can be in. */
  predicate Fits(tx: Tx) {
    match tx.pc
    case WantMandate => MandateKey(tx.job).Some?
    case WriteRevocation => tx.job.RevokeJob?
    case Closed(_) => true
    case ReadRevoked => tx.job.AppendJob? && tx.job.body.Authorized?
    case ReadVelocity => tx.job.AppendJob? && tx.job.body.Authorized?
    case ReadReserved => tx.job.AppendJob? && tx.job.body.Authorized?
    case ClaimNonce => tx.job.AppendJob? && tx.job.body.Paid?
    case ReadOwner => tx.job.AppendJob? && tx.job.body.Paid?
    case CountRefusals => tx.job.AppendJob? && tx.job.body.Denied?
    case ReadRelease => tx.job.AppendJob? && Releases(tx.job.body)
    case _ => tx.job.AppendJob?
  }

  /** The statements that take a lock, in the order of their ranks. */
  function MoveLock(h: string -> int, db: Db, locks: Locks, t: nat, tx: Tx): Move
    requires Fits(tx) && (tx.pc.WantContext? || tx.pc.WantMandate? || tx.pc.WantLog?)
  {
    match tx.pc
    case WantContext =>
      var key := h(tx.job.ctx);
      if key in locks.contexts then Wait
      else Next(db, locks.(contexts := locks.contexts[key := t]),
                tx.(pc := if tx.job.body.Authorized? then WantMandate else ReadRecord))
    case WantMandate =>
      var key := h(MandateKey(tx.job).value);
      if key in locks.mandates then Wait
      else Next(db, locks.(mandates := locks.mandates[key := t]),
                tx.(pc := if tx.job.AppendJob? then ReadRecord else WriteRevocation))
    case _ =>
      if LOG_KEY in locks.log then Wait
      else Next(db, locks.(log := locks.log[LOG_KEY := t]), tx.(pc := DrawSeq))
  }

  function MoveOf(h: string -> int, db: Db, locks: Locks, t: nat, tx: Tx): Move
    requires Fits(tx)
  {
    match tx.pc
    case WantContext => MoveLock(h, db, locks, t, tx)
    case WantMandate => MoveLock(h, db, locks, t, tx)
    case ReadRecord => MoveReadRecord(db, locks, tx)
    case ReadRevoked => MoveDecide(db, locks, tx)
    case ReadVelocity => MoveDecide(db, locks, tx)
    case ReadReserved => MoveDecide(db, locks, tx)
    case ClaimNonce => MoveNonce(db, locks, t, tx)
    case ReadOwner => MoveNonce(db, locks, t, tx)
    case CountRefusals =>
      if Denials(ChainOf(db.events, tx.job.ctx)) >= DENIAL_CAP then End(db, Refused(DenialsCapped))
      else Next(db, locks, tx.(pc := WantLog))
    case WantLog => MoveLock(h, db, locks, t, tx)
    case DrawSeq =>
      Next(db.(counter := db.counter + 1), locks, tx.(seqNo := db.counter + 1, pc := ReadPrevious))
    case ReadPrevious =>
      Next(db, locks, tx.(prev := Tip(ChainOf(db.events, tx.job.ctx)),
                          pc := if Releases(tx.job.body) then ReadRelease else Write))
    case ReadRelease => MoveRelease(db, locks, tx)
    case Write => End(WriteDb(db, tx), Committed)
    case WriteRevocation => End(RevokeDb(db, tx.job.mandate), Committed)
    case Closed(_) => Wait
  }

  // ----- the system -----

  function Unlock<K>(locks: map<K, nat>, t: nat): map<K, nat> {
    map k | k in locks && locks[k] != t :: locks[k]
  }

  /** A transaction that ends takes its locks and uncommitted rows with it. */
  function UnlockAll(locks: Locks, t: nat): Locks {
    Locks(Unlock(locks.contexts, t), Unlock(locks.mandates, t), Unlock(locks.log, t), Unlock(locks.nonces, t))
  }

  function Close(s: Pg, t: nat, db: Db, answer: Answer): Pg
    requires t in s.txs
  {
    Pg(db, UnlockAll(s.locks, t), s.txs[t := s.txs[t].(pc := Closed(answer))])
  }

  ghost predicate AllFit(s: Pg) {
    forall t :: t in s.txs ==> Fits(s.txs[t])
  }

  /** One statement of transaction `t`; `None` while it must wait. */
  function StepTx(h: string -> int, s: Pg, t: nat): Option<Pg>
    requires t in s.txs && Fits(s.txs[t])
  {
    match MoveOf(h, s.db, s.locks, t, s.txs[t])
    case Wait => None
    case Next(db, locks, tx) => Some(Pg(db, locks, s.txs[t := tx]))
    case End(db, answer) => Some(Close(s, t, db, answer))
  }

  datatype Action = Open(tid: nat, job: Job) | Go(tid: nat) | Abort(tid: nat)

  /** An action that cannot happen now leaves everything as it is. */
  function Act(h: string -> int, s: Pg, a: Action): Pg
    requires AllFit(s)
  {
    match a
    case Open(t, job) => if t in s.txs then s else s.(txs := s.txs[t := OpenTx(job)])
    case Go(t) =>
      if t !in s.txs then s
      else
        var next := StepTx(h, s, t);
        if next.Some? then next.value else s
    case Abort(t) =>
      if t in s.txs && IsOpen(s.txs[t]) then Close(s, t, s.db, RolledBack) else s
  }

  /** A statement keeps its transaction's job, and leaves it where the job can be. */
  lemma MoveFits(h: string -> int, db: Db, locks: Locks, t: nat, tx: Tx)
    requires Fits(tx)
    ensures var move := MoveOf(h, db, locks, t, tx);
            move.Next? ==> Fits(move.tx) && move.tx.job == tx.job && IsOpen(move.tx)
  {
    hide DecideBudget, VelocityRefusal, CheckTransition, ChainOf, Release, ReservedOr, Denials;
  }

  lemma ActFits(h: string -> int, s: Pg, a: Action)
    requires AllFit(s)
    ensures AllFit(Act(h, s, a))
  {
    hide MoveOf, UnlockAll;
    if a.Go? && a.tid in s.txs {
      MoveFits(h, s.db, s.locks, a.tid, s.txs[a.tid]);
    }
  }

  function Exec(h: string -> int, schedule: seq<Action>): (s: Pg)
    ensures AllFit(s)
  {
    if schedule == [] then FRESH
    else
      var s := Exec(h, DropLast(schedule));
      ActFits(h, s, Last(schedule));
      Act(h, s, Last(schedule))
  }
}
