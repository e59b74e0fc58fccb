/** Locks of the PostgreSQL store: who holds what in every reachable state, and why no
    schedule of transactions can deadlock. */
module PostgresLocks {
  import opened Prelude
  import opened Events
  import opened Bookkeeping
  import opened Postgres

  /** How far along a transaction is. */
  function Place(pc: Pc): nat {
    match pc
    case WantContext => 0
    case WantMandate => 1
    case ReadRecord => 2
    case ReadRevoked => 3
    case ReadVelocity => 4
    case ReadReserved => 5
    case ClaimNonce => 3
    case ReadOwner => 4
    case CountRefusals => 3
    case WantLog => 6
    case DrawSeq => 7
    case ReadPrevious => 8
    case ReadRelease => 9
    case Write => 10
    case WriteRevocation => 2
    case Closed(_) => LAST_PLACE
  }

  const LAST_PLACE: nat := 11

  // ----- what each transaction holds -----

  function ContextKey(h: string -> int, tx: Tx): Option<int> {
    if IsOpen(tx) && tx.job.AppendJob? && Place(tx.pc) > 0 then Some(h(tx.job.ctx)) else None
  }

  function MandateLock(h: string -> int, tx: Tx): Option<int> {
    if IsOpen(tx) && Place(tx.pc) > 1 && MandateKey(tx.job).Some? then Some(h(MandateKey(tx.job).value)) else None
  }

  function LogKey(tx: Tx): Option<int> {
    if IsOpen(tx) && Place(tx.pc) > 6 then Some(LOG_KEY) else None
  }

  function NonceKey(tx: Tx): Option<(string, string)> {
    if IsOpen(tx) && tx.claimed && tx.job.AppendJob? then Some(NonceOf(tx.job.body)) else None
  }

  function ContextKeys(h: string -> int, txs: map<nat, Tx>): map<nat, Option<int>> {
    map t | t in txs :: ContextKey(h, txs[t])
  }

  function MandateKeys(h: string -> int, txs: map<nat, Tx>): map<nat, Option<int>> {
    map t | t in txs :: MandateLock(h, txs[t])
  }

  function LogKeys(txs: map<nat, Tx>): map<nat, Option<int>> {
    map t | t in txs :: LogKey(txs[t])
  }

  function NonceKeys(txs: map<nat, Tx>): map<nat, Option<(string, string)>> {
    map t | t in txs :: NonceKey(txs[t])
  }

  /** A lock table lists exactly what the transactions hold, each lock under one holder. */
  ghost predicate Owned<K(!new)>(locks: map<K, nat>, keys: map<nat, Option<K>>) {
    && (forall k :: k in locks ==> locks[k] in keys && keys[locks[k]] == Some(k))
    && (forall t :: t in keys && keys[t].Some? ==> keys[t].value in locks && locks[keys[t].value] == t)
  }

  ghost predicate LocksOk(h: string -> int, s: Pg) {
    && Owned(s.locks.contexts, ContextKeys(h, s.txs))
    && Owned(s.locks.mandates, MandateKeys(h, s.txs))
    && Owned(s.locks.log, LogKeys(s.txs))
    && Owned(s.locks.nonces, NonceKeys(s.txs))
  }

  /** The nonce row is written late: a transaction that has one is past the decision. */
  predicate ClaimOk(tx: Tx) {
    tx.claimed ==> tx.job.AppendJob? && tx.job.body.Paid? && Place(tx.pc) >= 6
  }

  ghost predicate ClaimsOk(s: Pg) {
    forall t :: t in s.txs ==> ClaimOk(s.txs[t])
  }

  // ----- one lock table -----

  lemma OwnedTake<K(!new)>(locks: map<K, nat>, keys: map<nat, Option<K>>, t: nat, k: K)
    requires Owned(locks, keys) && k !in locks && t in keys && keys[t].None?
    ensures Owned(locks[k := t], keys[t := Some(k)])
  {
  }

  lemma OwnedDrop<K(!new)>(locks: map<K, nat>, keys: map<nat, Option<K>>, t: nat)
    requires Owned(locks, keys) && t in keys
    ensures Owned(Unlock(locks, t), keys[t := None])
  {
  }

  lemma OwnedNew<K(!new)>(locks: map<K, nat>, keys: map<nat, Option<K>>, t: nat)
    requires Owned(locks, keys) && t !in keys
    ensures Owned(locks, keys[t := None])
  {
  }

  /** How one lock table may change when a transaction moves on. */
  predicate Takes<K(==)>(locks: map<K, nat>, locks2: map<K, nat>, t: nat, key: Option<K>, key2: Option<K>) {
    || (locks2 == locks && key2 == key)
    || (key.None? && key2.Some? && key2.value !in locks && locks2 == locks[key2.value := t])
  }

  lemma TakesOwned<K(!new)>(locks: map<K, nat>, locks2: map<K, nat>, keys: map<nat, Option<K>>, t: nat, key2: Option<K>)
    requires Owned(locks, keys) && t in keys && Takes(locks, locks2, t, keys[t], key2)
    ensures Owned(locks2, keys[t := key2])
  {
    if locks2 == locks && key2 == keys[t] {
      assert keys[t := key2] == keys;
    } else {
      OwnedTake(locks, keys, t, key2.value);
    }
  }

  // ----- every statement keeps the lock tables right -----

  /** All four tables change as the transaction's holdings do. */
  predicate AllTake(h: string -> int, locks: Locks, t: nat, tx: Tx, next: Move)
    requires next.Next?
  {
    && Takes(locks.contexts, next.locks.contexts, t, ContextKey(h, tx), ContextKey(h, next.tx))
    && Takes(locks.mandates, next.locks.mandates, t, MandateLock(h, tx), MandateLock(h, next.tx))
    && Takes(locks.log, next.locks.log, t, LogKey(tx), LogKey(next.tx))
    && Takes(locks.nonces, next.locks.nonces, t, NonceKey(tx), NonceKey(next.tx))
    && ClaimOk(next.tx)
  }

  lemma LockTakes(h: string -> int, db: Db, locks: Locks, t: nat, tx: Tx)
    requires Fits(tx) && ClaimOk(tx) && (tx.pc.WantContext? || tx.pc.WantMandate? || tx.pc.WantLog?)
    requires MoveLock(h, db, locks, t, tx).Next?
    ensures AllTake(h, locks, t, tx, MoveLock(h, db, locks, t, tx))
  {
    match tx.pc
    case WantContext =>
    case WantMandate =>
    case WantLog =>
  }

  lemma NonceTakes(h: string -> int, db: Db, locks: Locks, t: nat, tx: Tx)
    requires Fits(tx) && ClaimOk(tx) && (tx.pc.ClaimNonce? || tx.pc.ReadOwner?)
    requires MoveNonce(db, locks, t, tx).Next?
    ensures AllTake(h, locks, t, tx, MoveNonce(db, locks, t, tx))
  {
  }

  /** A statement that only reads moves on without touching a lock. */
  predicate Reads(tx: Tx, locks: Locks, next: Move) {
    && next.Next? && next.locks == locks
    && next.tx.job == tx.job && next.tx.claimed == tx.claimed
    && IsOpen(tx) && IsOpen(next.tx) && Place(tx.pc) >= 2
    && Place(tx.pc) < Place(next.tx.pc)
    && (Place(next.tx.pc) > 6 ==> Place(tx.pc) > 6)
  }

  lemma ReadTakes(h: string -> int, locks: Locks, t: nat, tx: Tx, next: Move)
    requires Reads(tx, locks, next) && ClaimOk(tx)
    ensures AllTake(h, locks, t, tx, next)
  {
  }

  lemma QuietMove(h: string -> int, db: Db, locks: Locks, t: nat, tx: Tx)
    requires Fits(tx) && MoveOf(h, db, locks, t, tx).Next?
    requires !(tx.pc.WantContext? || tx.pc.WantMandate? || tx.pc.WantLog? || tx.pc.ClaimNonce? || tx.pc.ReadOwner?)
    ensures Reads(tx, locks, MoveOf(h, db, locks, t, tx))
  {
    hide DecideBudget, VelocityRefusal, CheckTransition, ChainOf, Release, ReservedOr, Denials;
  }

  lemma MoveTakes(h: string -> int, db: Db, locks: Locks, t: nat, tx: Tx)
    requires Fits(tx) && ClaimOk(tx)
    requires MoveOf(h, db, locks, t, tx).Next?
    ensures AllTake(h, locks, t, tx, MoveOf(h, db, locks, t, tx))
  {
    hide AllTake, Reads, ClaimOk, MoveLock, MoveNonce, MoveReadRecord, MoveDecide, MoveRelease;
    if tx.pc.WantContext? || tx.pc.WantMandate? || tx.pc.WantLog? {
      LockTakes(h, db, locks, t, tx);
    } else if tx.pc.ClaimNonce? || tx.pc.ReadOwner? {
      NonceTakes(h, db, locks, t, tx);
    } else {
      QuietMove(h, db, locks, t, tx);
      ReadTakes(h, locks, t, tx, MoveOf(h, db, locks, t, tx));
    }
  }

  lemma KeysPut(h: string -> int, txs: map<nat, Tx>, t: nat, tx: Tx)
    ensures ContextKeys(h, txs[t := tx]) == ContextKeys(h, txs)[t := ContextKey(h, tx)]
    ensures MandateKeys(h, txs[t := tx]) == MandateKeys(h, txs)[t := MandateLock(h, tx)]
    ensures LogKeys(txs[t := tx]) == LogKeys(txs)[t := LogKey(tx)]
    ensures NonceKeys(txs[t := tx]) == NonceKeys(txs)[t := NonceKey(tx)]
  {
    hide ContextKey, MandateLock, LogKey, NonceKey;
  }

  lemma NextLocks(h: string -> int, s: Pg, t: nat, next: Move)
    requires LocksOk(h, s) && t in s.txs && next.Next? && AllTake(h, s.locks, t, s.txs[t], next)
    ensures LocksOk(h, Pg(next.db, next.locks, s.txs[t := next.tx]))
  {
    hide Owned, ContextKey, MandateLock, LogKey, NonceKey, Takes;
    KeysPut(h, s.txs, t, next.tx);
    TakesOwned(s.locks.contexts, next.locks.contexts, ContextKeys(h, s.txs), t, ContextKey(h, next.tx));
    TakesOwned(s.locks.mandates, next.locks.mandates, MandateKeys(h, s.txs), t, MandateLock(h, next.tx));
    TakesOwned(s.locks.log, next.locks.log, LogKeys(s.txs), t, LogKey(next.tx));
    TakesOwned(s.locks.nonces, next.locks.nonces, NonceKeys(s.txs), t, NonceKey(next.tx));
  }

  lemma CloseLocks(h: string -> int, s: Pg, t: nat, db: Db, answer: Answer)
    requires LocksOk(h, s) && t in s.txs
    ensures LocksOk(h, Close(s, t, db, answer))
  {
    hide Owned, Unlock;
    KeysPut(h, s.txs, t, s.txs[t].(pc := Closed(answer)));
    OwnedDrop(s.locks.contexts, ContextKeys(h, s.txs), t);
    OwnedDrop(s.locks.mandates, MandateKeys(h, s.txs), t);
    OwnedDrop(s.locks.log, LogKeys(s.txs), t);
    OwnedDrop(s.locks.nonces, NonceKeys(s.txs), t);
  }

  lemma OpenLocks(h: string -> int, s: Pg, t: nat, job: Job)
    requires LocksOk(h, s) && t !in s.txs
    ensures LocksOk(h, s.(txs := s.txs[t := OpenTx(job)]))
  {
    hide Owned;
    KeysPut(h, s.txs, t, OpenTx(job));
    OwnedNew(s.locks.contexts, ContextKeys(h, s.txs), t);
    OwnedNew(s.locks.mandates, MandateKeys(h, s.txs), t);
    OwnedNew(s.locks.log, LogKeys(s.txs), t);
    OwnedNew(s.locks.nonces, NonceKeys(s.txs), t);
  }

  lemma ActLocks(h: string -> int, s: Pg, a: Action)
    requires AllFit(s) && LocksOk(h, s) && ClaimsOk(s)
    ensures LocksOk(h, Act(h, s, a)) && ClaimsOk(Act(h, s, a))
  {
    hide LocksOk, MoveOf, UnlockAll, Fits;
    match a
    case Open(t, job) =>
      if t !in s.txs {
        OpenLocks(h, s, t, job);
      }
    case Go(t) =>
      if t in s.txs {
        var move := MoveOf(h, s.db, s.locks, t, s.txs[t]);
        match move
        case Wait =>
        case Next(_, _, _) =>
          MoveTakes(h, s.db, s.locks, t, s.txs[t]);
          NextLocks(h, s, t, move);
        case End(db, answer) => CloseLocks(h, s, t, db, answer);
      }
    case Abort(t) =>
      if t in s.txs {
        CloseLocks(h, s, t, s.db, RolledBack);
      }
  }

  /** In every reachable state the lock tables say exactly what the transactions hold. */
  lemma {:induction false} LocksAreHeld(h: string -> int, schedule: seq<Action>)
    ensures LocksOk(h, Exec(h, schedule)) && ClaimsOk(Exec(h, schedule))
  {
    if schedule != [] {
      LocksAreHeld(h, DropLast(schedule));
      ActLocks(h, Exec(h, DropLast(schedule)), Last(schedule));
    }
  }

  // ----- no deadlock -----

  lemma WaitsAtLocks(h: string -> int, db: Db, locks: Locks, t: nat, tx: Tx)
    requires Fits(tx) && IsOpen(tx) && MoveOf(h, db, locks, t, tx).Wait?
    ensures match tx.pc
            case WantContext => tx.job.AppendJob? && h(tx.job.ctx) in locks.contexts
            case WantMandate => MandateKey(tx.job).Some? && h(MandateKey(tx.job).value) in locks.mandates
            case ClaimNonce => tx.job.AppendJob? && NonceOf(tx.job.body) in locks.nonces
            case WantLog => LOG_KEY in locks.log
            case _ => false
  {
    hide DecideBudget, VelocityRefusal, CheckTransition, ChainOf, Release, ReservedOr, Denials;
    match tx.pc
    case WantContext =>
    case _ =>
  }

  lemma HolderKnown<K(!new)>(locks: map<K, nat>, keys: map<nat, Option<K>>, k: K)
    requires Owned(locks, keys) && k in locks
    ensures locks[k] in keys && keys[locks[k]] == Some(k)
  {
  }

  /** The lock order: a transaction only ever waits for one that is further along. */
  lemma WaitsForward(h: string -> int, s: Pg, t: nat) returns (u: nat)
    requires AllFit(s) && LocksOk(h, s) && ClaimsOk(s)
    requires t in s.txs && IsOpen(s.txs[t]) && StepTx(h, s, t).None?
    ensures u in s.txs && IsOpen(s.txs[u]) && Place(s.txs[u].pc) > Place(s.txs[t].pc)
  {
    hide MoveOf, Fits, Owned;
    var tx := s.txs[t];
    WaitsAtLocks(h, s.db, s.locks, t, tx);
    match tx.pc
    case WantContext =>
      u := s.locks.contexts[h(tx.job.ctx)];
      HolderKnown(s.locks.contexts, ContextKeys(h, s.txs), h(tx.job.ctx));
    case WantMandate =>
      u := s.locks.mandates[h(MandateKey(tx.job).value)];
      HolderKnown(s.locks.mandates, MandateKeys(h, s.txs), h(MandateKey(tx.job).value));
    case ClaimNonce =>
      u := s.locks.nonces[NonceOf(tx.job.body)];
      HolderKnown(s.locks.nonces, NonceKeys(s.txs), NonceOf(tx.job.body));
    case WantLog =>
      u := s.locks.log[LOG_KEY];
      HolderKnown(s.locks.log, LogKeys(s.txs), LOG_KEY);
  }

  lemma PlaceBounded(pc: Pc)
    ensures Place(pc) <= LAST_PLACE && (Place(pc) == LAST_PLACE <==> pc.Closed?)
  {
  }

  /** No deadlock: while any transaction is open, one of them can execute its next statement. */
  lemma {:induction false} SomeoneSteps(h: string -> int, s: Pg, t: nat) returns (u: nat)
    requires AllFit(s) && LocksOk(h, s) && ClaimsOk(s)
    requires t in s.txs && IsOpen(s.txs[t])
    ensures u in s.txs && IsOpen(s.txs[u]) && StepTx(h, s, u).Some?
    decreases LAST_PLACE - Place(s.txs[t].pc)
  {
    hide LocksOk, StepTx, Place;
    PlaceBounded(s.txs[t].pc);
    u := t;
    if StepTx(h, s, t).None? {
      var further := WaitsForward(h, s, t);
      PlaceBounded(s.txs[further].pc);
      u := SomeoneSteps(h, s, further);
    }
  }

  // ----- termination -----

  function LeftOver(txs: map<nat, Tx>): map<nat, int> {
    map t | t in txs :: LAST_PLACE - Place(txs[t].pc)
  }

  /** How many statements the open transactions can still execute, at most. */
  ghost function Remaining(s: Pg): int {
    Total(LeftOver(s.txs))
  }

  lemma PutAdvances(txs: map<nat, Tx>, t: nat, tx: Tx)
    requires t in txs && Place(tx.pc) > Place(txs[t].pc)
    ensures Total(LeftOver(txs[t := tx])) < Total(LeftOver(txs))
  {
    hide Place;
    var before, after := LeftOver(txs), LeftOver(txs[t := tx]);
    TotalRemove(before, t);
    TotalRemove(after, t);
    assert before - {t} == after - {t};
  }

  lemma MoveAdvances(h: string -> int, db: Db, locks: Locks, t: nat, tx: Tx)
    requires Fits(tx) && MoveOf(h, db, locks, t, tx).Next?
    ensures Place(MoveOf(h, db, locks, t, tx).tx.pc) > Place(tx.pc)
  {
    hide Reads, MoveOf;
    if tx.pc.WantContext? || tx.pc.WantMandate? || tx.pc.WantLog? || tx.pc.ClaimNonce? || tx.pc.ReadOwner? {
      LockAdvances(h, db, locks, t, tx);
    } else {
      QuietMove(h, db, locks, t, tx);
      ReadsAdvance(tx, locks, MoveOf(h, db, locks, t, tx));
    }
  }

  lemma ReadsAdvance(tx: Tx, locks: Locks, next: Move)
    requires Reads(tx, locks, next)
    ensures next.Next? && Place(next.tx.pc) > Place(tx.pc)
  {
  }

  lemma LockAdvances(h: string -> int, db: Db, locks: Locks, t: nat, tx: Tx)
    requires Fits(tx) && MoveOf(h, db, locks, t, tx).Next?
    requires tx.pc.WantContext? || tx.pc.WantMandate? || tx.pc.WantLog? || tx.pc.ClaimNonce? || tx.pc.ReadOwner?
    ensures Place(MoveOf(h, db, locks, t, tx).tx.pc) > Place(tx.pc)
  {
    hide MoveReadRecord, MoveDecide, MoveRelease, Denials;
  }

  /** A statement that executes uses up one of those left. */
  lemma StepAdvances(h: string -> int, s: Pg, t: nat)
    requires AllFit(s) && t in s.txs && IsOpen(s.txs[t]) && StepTx(h, s, t).Some?
    ensures Remaining(StepTx(h, s, t).value) < Remaining(s)
  {
    hide MoveOf, Fits, Place;
    var tx := s.txs[t];
    PlaceBounded(tx.pc);
    match MoveOf(h, s.db, s.locks, t, tx)
    case Next(_, _, next) =>
      MoveAdvances(h, s.db, s.locks, t, tx);
      PutAdvances(s.txs, t, next);
    case End(_, answer) =>
      PlaceBounded(Closed(answer));
      PutAdvances(s.txs, t, tx.(pc := Closed(answer)));
  }

  predicate AllClosed(s: Pg) {
    forall t :: t in s.txs ==> s.txs[t].pc.Closed?
  }

  lemma ExecSnoc(h: string -> int, schedule: seq<Action>, a: Action)
    ensures Exec(h, schedule + [a]) == Act(h, Exec(h, schedule), a)
  {
    SnocParts(schedule, a);
  }

  lemma RemainingNonNegative(s: Pg)
    ensures Remaining(s) >= 0
  {
    forall t | t in s.txs
      ensures Place(s.txs[t].pc) <= LAST_PLACE
    {
      PlaceBounded(s.txs[t].pc);
    }
    TotalNonNegative(LeftOver(s.txs));
  }

  /** However a schedule has interleaved its transactions, those still open can all run to
      their end, with no other transaction's help and in no more statements than are left. */
  lemma {:induction false} EveryoneFinishes(h: string -> int, schedule: seq<Action>) returns (rest: seq<Action>)
    ensures forall i :: 0 <= i < |rest| ==> rest[i].Go?
    ensures |rest| <= Remaining(Exec(h, schedule))
    ensures AllClosed(Exec(h, schedule + rest))
    decreases Remaining(Exec(h, schedule))
  {
    hide Exec, LocksOk, ClaimsOk, StepTx, Remaining;
    var s := Exec(h, schedule);
    RemainingNonNegative(s);
    if AllClosed(s) {
      rest := [];
      assert schedule + rest == schedule;
    } else {
      var t :| t in s.txs && IsOpen(s.txs[t]);
      LocksAreHeld(h, schedule);
      var u := SomeoneSteps(h, s, t);
      StepAdvances(h, s, u);
      ExecSnoc(h, schedule, Go(u));
      var more := EveryoneFinishes(h, schedule + [Go(u)]);
      rest := [Go(u)] + more;
      assert schedule + rest == schedule + [Go(u)] + more;
    }
  }
}
