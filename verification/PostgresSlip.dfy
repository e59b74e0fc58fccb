/** The reservation that stays too high: an interleaving in which an authorization
    overwrites a release that committed after it read the row. */
module PostgresSlip {
  import opened Prelude
  import opened Domain
  import opened Scopes
  import opened Events
  import opened Evidence
  import opened Bookkeeping
  import opened StoreRuns
  import opened StoreClaims
  import opened Postgres
  import opened PostgresLocks
  import opened PostgresLost

  function Gos(t: nat, n: nat): seq<Action> {
    if n == 0 then [] else Gos(t, n - 1) + [Go(t)]
  }

  /** `n` statements of transaction `t`, one after the other. */
  function GoN(h: string -> int, s: Pg, t: nat, n: nat): (s2: Pg)
    requires AllFit(s)
    ensures AllFit(s2)
  {
    if n == 0 then s
    else
      ActFits(h, GoN(h, s, t, n - 1), Go(t));
      Act(h, GoN(h, s, t, n - 1), Go(t))
  }

  lemma GoNone(h: string -> int, s: Pg, t: nat)
    requires AllFit(s)
    ensures GoN(h, s, t, 0) == s
  {
  }

  lemma GoMore(h: string -> int, s: Pg, t: nat, n: nat)
    requires AllFit(s)
    ensures GoN(h, s, t, n + 1) == Act(h, GoN(h, s, t, n), Go(t))
  {
    hide Act;
  }

  lemma {:induction false} ExecGos(h: string -> int, schedule: seq<Action>, t: nat, n: nat)
    ensures Exec(h, schedule + Gos(t, n)) == GoN(h, Exec(h, schedule), t, n)
  {
    hide Act, Exec, GoN;
    if n == 0 {
      assert schedule + Gos(t, 0) == schedule;
      GoNone(h, Exec(h, schedule), t);
    } else {
      ExecGos(h, schedule, t, n - 1);
      assert schedule + Gos(t, n) == schedule + Gos(t, n - 1) + [Go(t)];
      ExecSnoc(h, schedule + Gos(t, n - 1), Go(t));
      GoMore(h, Exec(h, schedule), t, n - 1);
    }
  }

  /** `s` with transaction `t` gone on to `tx`. */
  function At(s: Pg, t: nat, db: Db, locks: Locks, tx: Tx): Pg {
    Pg(db, locks, s.txs[t := tx])
  }

  /** One more statement of `t`, from what it does to the tables, the locks and `t`. */
  lemma GoNext(h: string -> int, s: Pg, t: nat, n: nat, db: Db, locks: Locks, tx: Tx, db2: Db, locks2: Locks, tx2: Tx)
    requires AllFit(s) && GoN(h, s, t, n) == At(s, t, db, locks, tx)
    requires Fits(tx) && MoveOf(h, db, locks, t, tx) == Next(db2, locks2, tx2)
    ensures GoN(h, s, t, n + 1) == At(s, t, db2, locks2, tx2)
  {
    hide MoveOf, GoN, Fits;
    GoMore(h, s, t, n);
    assert s.txs[t := tx][t := tx2] == s.txs[t := tx2];
  }

  lemma GoFirst(h: string -> int, s: Pg, t: nat, tx: Tx)
    requires AllFit(s) && t in s.txs && s.txs[t] == tx
    ensures GoN(h, s, t, 0) == At(s, t, s.db, s.locks, tx)
  {
    GoNone(h, s, t);
    assert s.txs[t := tx] == s.txs;
  }

  /** An uncapped, unlimited authorization of a new context, free to take its locks. */
  predicate FreeToDecide(h: string -> int, s: Pg, t: nat) {
    && t in s.txs && s.txs[t].job.AppendJob? && s.txs[t].job.body.Authorized?
    && s.txs[t] == OpenTx(s.txs[t].job)
    && var job := s.txs[t].job;
       var id, total := job.body.mandate.body.id, job.body.cart.claims.total;
       && h(job.ctx) !in s.locks.contexts && h(id) !in s.locks.mandates
       && job.ctx !in s.db.books.records && id !in s.db.books.revoked
       && job.body.mandate.body.scope.velocity.None? && job.body.mandate.body.scope.maxTotal.None?
       && CheckedAdd(ReservedOr(s.db.books, id, total.currency), total).Ok?
  }

  /** Where its decision leaves it: ready to queue for the log, with the row as it read it. */
  function Decided(h: string -> int, s: Pg, t: nat): Pg
    requires FreeToDecide(h, s, t)
  {
    var job := s.txs[t].job;
    var id, total := job.body.mandate.body.id, job.body.cart.claims.total;
    At(s, t, s.db,
       s.locks.(contexts := s.locks.contexts[h(job.ctx) := t], mandates := s.locks.mandates[h(id) := t]),
       OpenTx(job).(pc := WantLog, read := ReservedOr(s.db.books, id, total.currency)))
  }

  lemma DecideRuns(h: string -> int, s: Pg, t: nat)
    requires AllFit(s) && FreeToDecide(h, s, t)
    ensures GoN(h, s, t, 6) == Decided(h, s, t)
  {
    hide GoN, AllFit;
    var tx := s.txs[t];
    var id := tx.job.body.mandate.body.id;
    var locks1 := s.locks.(contexts := s.locks.contexts[h(tx.job.ctx) := t]);
    var locks2 := locks1.(mandates := s.locks.mandates[h(id) := t]);
    GoFirst(h, s, t, tx);
    GoNext(h, s, t, 0, s.db, s.locks, tx, s.db, locks1, tx.(pc := WantMandate));
    GoNext(h, s, t, 1, s.db, locks1, tx.(pc := WantMandate), s.db, locks2, tx.(pc := ReadRecord));
    GoNext(h, s, t, 2, s.db, locks2, tx.(pc := ReadRecord), s.db, locks2, tx.(pc := ReadRevoked));
    GoNext(h, s, t, 3, s.db, locks2, tx.(pc := ReadRevoked), s.db, locks2, tx.(pc := ReadVelocity));
    GoNext(h, s, t, 4, s.db, locks2, tx.(pc := ReadVelocity), s.db, locks2, tx.(pc := ReadReserved));
    GoNext(h, s, t, 5, s.db, locks2, tx.(pc := ReadReserved), s.db, locks2,
           tx.(pc := WantLog, read := ReservedOr(s.db.books, id, tx.job.body.cart.claims.total.currency)));
  }

  /** A transaction about to queue for a free log lock. */
  predicate FreeToWrite(s: Pg, t: nat) {
    t in s.txs && s.txs[t].job.AppendJob? && s.txs[t].pc.WantLog? && LOG_KEY !in s.locks.log
  }

  /** It with its number drawn and the chain's last hash read. */
  function Numbered(s: Pg, t: nat): Tx
    requires FreeToWrite(s, t)
  {
    s.txs[t].(seqNo := s.db.counter + 1, prev := Tip(ChainOf(s.db.events, s.txs[t].job.ctx)), pc := Write)
  }

  /** The state once it has committed as `tx`. */
  function Wrote(s: Pg, t: nat, tx: Tx): Pg
    requires FreeToWrite(s, t) && tx.job.AppendJob?
  {
    At(s, t, WriteDb(s.db.(counter := s.db.counter + 1), tx),
       UnlockAll(s.locks.(log := s.locks.log[LOG_KEY := t]), t), tx.(pc := Closed(Committed)))
  }

  lemma GoLast(h: string -> int, s: Pg, t: nat, n: nat, db: Db, locks: Locks, tx: Tx)
    requires AllFit(s) && GoN(h, s, t, n) == At(s, t, db, locks, tx)
    requires tx.pc.Write? && tx.job.AppendJob?
    ensures GoN(h, s, t, n + 1) == At(s, t, WriteDb(db, tx), UnlockAll(locks, t), tx.(pc := Closed(Committed)))
  {
    hide GoN, WriteDb, UnlockAll;
    GoMore(h, s, t, n);
    assert s.txs[t := tx][t := tx.(pc := Closed(Committed))] == s.txs[t := tx.(pc := Closed(Committed))];
  }

  lemma WriteRuns(h: string -> int, s: Pg, t: nat)
    requires AllFit(s) && FreeToWrite(s, t) && !Releases(s.txs[t].job.body)
    ensures GoN(h, s, t, 4) == Wrote(s, t, Numbered(s, t))
  {
    hide GoN, AllFit, WriteDb, UnlockAll, ChainOf;
    var tx := s.txs[t];
    var locks1 := s.locks.(log := s.locks.log[LOG_KEY := t]);
    var db1 := s.db.(counter := s.db.counter + 1);
    var drawn := tx.(seqNo := db1.counter, pc := ReadPrevious);
    GoFirst(h, s, t, tx);
    GoNext(h, s, t, 0, s.db, s.locks, tx, s.db, locks1, tx.(pc := DrawSeq));
    GoNext(h, s, t, 1, s.db, locks1, tx.(pc := DrawSeq), db1, locks1, drawn);
    GoNext(h, s, t, 2, db1, locks1, drawn, db1, locks1, Numbered(s, t));
    GoLast(h, s, t, 3, db1, locks1, Numbered(s, t));
  }

  lemma ReleaseRuns(h: string -> int, s: Pg, t: nat, left: Money)
    requires AllFit(s) && FreeToWrite(s, t) && Releases(s.txs[t].job.body) && s.txs[t].existing.Some?
    requires Release(s.db.books, s.txs[t].existing.value.mandateId, s.txs[t].existing.value.amount) == Ok(left)
    ensures GoN(h, s, t, 5) == Wrote(s, t, Numbered(s, t).(left := left))
  {
    hide GoN, AllFit, WriteDb, UnlockAll, ChainOf, Release;
    var tx := s.txs[t];
    var locks1 := s.locks.(log := s.locks.log[LOG_KEY := t]);
    var db1 := s.db.(counter := s.db.counter + 1);
    var drawn := tx.(seqNo := db1.counter, pc := ReadPrevious);
    var found := Numbered(s, t).(pc := ReadRelease);
    assert Release(db1.books, found.existing.value.mandateId, found.existing.value.amount) == Ok(left);
    GoFirst(h, s, t, tx);
    GoNext(h, s, t, 0, s.db, s.locks, tx, s.db, locks1, tx.(pc := DrawSeq));
    GoNext(h, s, t, 1, s.db, locks1, tx.(pc := DrawSeq), db1, locks1, drawn);
    GoNext(h, s, t, 2, db1, locks1, drawn, db1, locks1, found);
    GoNext(h, s, t, 3, db1, locks1, found, db1, locks1, Numbered(s, t).(left := left));
    GoLast(h, s, t, 4, db1, locks1, Numbered(s, t).(left := left));
  }

  /** An expiry of an authorized context, free to take its lock. */
  predicate FreeToExpire(h: string -> int, s: Pg, t: nat) {
    && t in s.txs && s.txs[t].job.AppendJob? && s.txs[t].job.body.Expired? && s.txs[t] == OpenTx(s.txs[t].job)
    && h(s.txs[t].job.ctx) !in s.locks.contexts
    && s.txs[t].job.ctx in s.db.books.records && s.db.books.records[s.txs[t].job.ctx].state.Authorized?
  }

  function Expiring(h: string -> int, s: Pg, t: nat): Pg
    requires FreeToExpire(h, s, t)
  {
    At(s, t, s.db, s.locks.(contexts := s.locks.contexts[h(s.txs[t].job.ctx) := t]),
       s.txs[t].(pc := WantLog, existing := Some(s.db.books.records[s.txs[t].job.ctx])))
  }

  lemma ExpireRuns(h: string -> int, s: Pg, t: nat)
    requires AllFit(s) && FreeToExpire(h, s, t)
    ensures GoN(h, s, t, 2) == Expiring(h, s, t)
  {
    hide GoN, AllFit;
    var tx := s.txs[t];
    var locks1 := s.locks.(contexts := s.locks.contexts[h(tx.job.ctx) := t]);
    GoFirst(h, s, t, tx);
    GoNext(h, s, t, 0, s.db, s.locks, tx, s.db, locks1, tx.(pc := ReadRecord));
    GoNext(h, s, t, 1, s.db, locks1, tx.(pc := ReadRecord), s.db, locks1,
           tx.(pc := WantLog, existing := Some(s.db.books.records[tx.job.ctx])));
  }

  // ----- the interleaving -----

  /** Two purchases under one uncapped mandate, in contexts that hash apart. */
  datatype Scene = Scene(a: ContextId, b: ContextId, mandate: Mandate, first: Cart, second: Cart, at: Time)

  predicate Staged(h: string -> int, x: Scene) {
    && h(x.a) != h(x.b)
    && x.mandate.body.scope.velocity.None? && x.mandate.body.scope.maxTotal.None?
    && x.first.claims.total.currency == x.second.claims.total.currency
    && x.first.claims.total.amount > 0 && x.second.claims.total.amount > 0
    && x.first.claims.total.amount + x.second.claims.total.amount <= DECIMAL_MAX
  }

  function Buy(x: Scene, ctx: ContextId, cart: Cart): Job {
    AppendJob(ctx, x.at, EventBody.Authorized(x.mandate, cart, ""))
  }

  /** What the tables hold, in these four steps. */
  predicate Tables(b: Books, x: Scene, records: map<ContextId, Record>, reserved: Money) {
    b.records == records && b.reserved == map[x.mandate.body.id := reserved] && b.revoked == {}
  }

  function FirstRecord(x: Scene): Record {
    NewRecord(x.a, x.mandate, x.first)
  }

  /** The second purchase has read the row, and has not yet queued for the log. */
  predicate SecondWaits(h: string -> int, x: Scene, s: Pg) {
    && s.locks == Locks(map[h(x.b) := 1], map[h(x.mandate.body.id) := 1], map[], map[])
    && 1 in s.txs && s.txs[1] == OpenTx(Buy(x, x.b, x.second)).(pc := WantLog, read := x.first.claims.total)
  }

  predicate FirstBought(x: Scene, s: Pg) {
    && s.locks == Locks(map[], map[], map[], map[]) && s.txs.Keys == {0}
    && Tables(s.db.books, x, map[x.a := FirstRecord(x)], x.first.claims.total)
  }

  lemma BuyFirst(h: string -> int, x: Scene)
    requires Staged(h, x)
    ensures FirstBought(x, Exec(h, [Open(0, Buy(x, x.a, x.first))] + Gos(0, 6) + Gos(0, 4)))
  {
    hide Exec, GoN, AllFit, Gos, ChainOf;
    var schedule := [Open(0, Buy(x, x.a, x.first))];
    var s0 := FRESH.(txs := map[0 := OpenTx(Buy(x, x.a, x.first))]);
    ExecNothing(h);
    OpenAfter(h, [], 0, Buy(x, x.a, x.first));
    assert [] + schedule == schedule;
    ExecGos(h, schedule, 0, 6);
    DecideRuns(h, s0, 0);
    ExecGos(h, schedule + Gos(0, 6), 0, 4);
    WriteRuns(h, Decided(h, s0, 0), 0);
  }

  lemma ExecNothing(h: string -> int)
    ensures Exec(h, []) == FRESH
  {
  }

  lemma OpenAfter(h: string -> int, schedule: seq<Action>, t: nat, job: Job)
    requires t !in Exec(h, schedule).txs
    ensures Exec(h, schedule + [Open(t, job)]) ==
            Exec(h, schedule).(txs := Exec(h, schedule).txs[t := OpenTx(job)])
  {
    hide Exec;
    ExecSnoc(h, schedule, Open(t, job));
  }

  lemma ReadSecond(h: string -> int, x: Scene, so: seq<Action>)
    requires Staged(h, x) && FirstBought(x, Exec(h, so))
    ensures var s := Exec(h, so + [Open(1, Buy(x, x.b, x.second))] + Gos(1, 6));
            && SecondWaits(h, x, s) && s.txs.Keys == {0, 1}
            && Tables(s.db.books, x, map[x.a := FirstRecord(x)], x.first.claims.total)
  {
    hide Exec, GoN, AllFit, Gos, ChainOf;
    var schedule := so + [Open(1, Buy(x, x.b, x.second))];
    OpenAfter(h, so, 1, Buy(x, x.b, x.second));
    ExecGos(h, schedule, 1, 6);
    DecideRuns(h, Exec(h, schedule), 1);
  }

  /** The first purchase's expiry is in flight while the second waits. */
  predicate FirstExpiring(h: string -> int, x: Scene, s: Pg) {
    && s.locks == Locks(map[h(x.b) := 1, h(x.a) := 2], map[h(x.mandate.body.id) := 1], map[], map[])
    && 1 in s.txs && s.txs[1] == OpenTx(Buy(x, x.b, x.second)).(pc := WantLog, read := x.first.claims.total)
    && 2 in s.txs
    && s.txs[2] == OpenTx(AppendJob(x.a, x.at, EventBody.Expired)).(pc := WantLog, existing := Some(FirstRecord(x)))
    && Tables(s.db.books, x, map[x.a := FirstRecord(x)], x.first.claims.total)
  }

  lemma ExpireOpens(h: string -> int, x: Scene, so: seq<Action>)
    requires Staged(h, x) && SecondWaits(h, x, Exec(h, so)) && Exec(h, so).txs.Keys == {0, 1}
    requires Tables(Exec(h, so).db.books, x, map[x.a := FirstRecord(x)], x.first.claims.total)
    ensures FirstExpiring(h, x, Exec(h, so + [Open(2, AppendJob(x.a, x.at, EventBody.Expired))] + Gos(2, 2)))
  {
    hide Exec, GoN, AllFit, Gos, ChainOf;
    var job := AppendJob(x.a, x.at, EventBody.Expired);
    var schedule := so + [Open(2, job)];
    OpenAfter(h, so, 2, job);
    ExecGos(h, schedule, 2, 2);
    ExpireRuns(h, Exec(h, schedule), 2);
  }

  lemma ExpireFirst(h: string -> int, x: Scene, so: seq<Action>)
    requires Staged(h, x) && FirstExpiring(h, x, Exec(h, so))
    ensures var s := Exec(h, so + Gos(2, 5));
            && SecondWaits(h, x, s)
            && Tables(s.db.books, x, map[x.a := Advance(FirstRecord(x), EventBody.Expired)],
                      Zero(x.first.claims.total.currency))
  {
    hide Exec, GoN, AllFit, Gos, ChainOf;
    ExecGos(h, so, 2, 5);
    ReleaseRuns(h, Exec(h, so), 2, Zero(x.first.claims.total.currency));
  }

  lemma BuySecond(h: string -> int, x: Scene, so: seq<Action>)
    requires Staged(h, x) && SecondWaits(h, x, Exec(h, so))
    requires Tables(Exec(h, so).db.books, x, map[x.a := Advance(FirstRecord(x), EventBody.Expired)],
                    Zero(x.first.claims.total.currency))
    ensures var b := Exec(h, so + Gos(1, 4)).db.books;
            && b.records == map[x.a := Advance(FirstRecord(x), EventBody.Expired),
                                x.b := NewRecord(x.b, x.mandate, x.second)]
            && x.mandate.body.id in b.reserved
            && b.reserved[x.mandate.body.id].amount == x.first.claims.total.amount + x.second.claims.total.amount
  {
    hide Exec, GoN, AllFit, Gos, ChainOf;
    ExecGos(h, so, 1, 4);
    WriteRuns(h, Exec(h, so), 1);
  }

  lemma OnlySecondLive(x: Scene)
    requires x.a != x.b
    ensures var records := map[x.a := Advance(FirstRecord(x), EventBody.Expired),
                               x.b := NewRecord(x.b, x.mandate, x.second)];
            LiveTotal(records, x.mandate.body.id) == x.second.claims.total.amount
  {
    var records := map[x.a := Advance(FirstRecord(x), EventBody.Expired), x.b := NewRecord(x.b, x.mandate, x.second)];
    var live := LiveAmounts(records, x.mandate.body.id);
    var none: map<ContextId, int> := map[];
    assert live == none[x.b := x.second.claims.total.amount];
    TotalInsert(none, x.b, x.second.claims.total.amount);
  }

  /** The first purchase, whole; the second, as far as reading the row; the first's expiry,
      whole; then the rest of the second. */
  function Interleaving(x: Scene): seq<Action> {
    [Open(0, Buy(x, x.a, x.first))] + Gos(0, 6) + Gos(0, 4)
    + [Open(1, Buy(x, x.b, x.second))] + Gos(1, 6)
    + [Open(2, AppendJob(x.a, x.at, EventBody.Expired))] + Gos(2, 2) + Gos(2, 5)
    + Gos(1, 4)
  }

  /** The expired purchase is still reserved afterwards: conservation, which the in-memory
      store keeps, fails here by the whole of its amount. */
  lemma ReleaseOverwritten(h: string -> int, x: Scene)
    requires Staged(h, x)
    ensures var b := Exec(h, Interleaving(x)).db.books;
            Owed(b, x.mandate.body.id) == LiveTotal(b.records, x.mandate.body.id) + x.first.claims.total.amount
  {
    hide Exec, Gos, LiveTotal, Tables, SecondWaits, FirstBought, FirstExpiring;
    BuyFirst(h, x);
    var so1 := [Open(0, Buy(x, x.a, x.first))] + Gos(0, 6) + Gos(0, 4);
    ReadSecond(h, x, so1);
    var so2 := so1 + [Open(1, Buy(x, x.b, x.second))] + Gos(1, 6);
    ExpireOpens(h, x, so2);
    var so3 := so2 + [Open(2, AppendJob(x.a, x.at, EventBody.Expired))] + Gos(2, 2);
    ExpireFirst(h, x, so3);
    BuySecond(h, x, so3 + Gos(2, 5));
    OnlySecondLive(x);
  }
}
