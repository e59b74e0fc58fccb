/** The engine over the PostgreSQL store: each append a call makes is a transaction whose
    statements interleave with everyone else's, and each such system is one the engine's
    claims are about. */
module PostgresEngine {
  import opened Prelude
  import opened Domain
  import opened Scopes
  import opened Events
  import opened Evidence
  import opened Bookkeeping
  import opened StoreRuns
  import opened StoreClaims
  import opened WorldGrowth
  import opened Engine
  import opened EngineRuns
  import P = Postgres
  import D = PostgresData
  import R = PostgresRefines
  import C = PostgresClaims

  /** Calls in progress over one database; `flights` says whose append a transaction is. */
  datatype Joint = Joint(pg: P.Pg, threads: map<nat, Thread>, flights: map<nat, nat>)

  const QUIET: Joint := Joint(P.FRESH, map[], map[])

  datatype Move =
    | Enter(tid: nat, call: Call)
    | Read(tid: nat)
    | Send(tid: nat, tx: nat)
    | Withdraw(tx: nat, mandate: MandateId)
    | Statement(tx: nat, lost: bool)
    | Drop(tx: nat)

  // ----- one move -----

  /** The committed tables, as a call's reads see them. */
  function Seen(db: P.Db): World {
    World(Store(db.books, db.events, 0), db.events)
  }

  predicate Writing(pc: Pc) {
    pc.Submit? || pc.Deny?
  }

  predicate Reading(pc: Pc) {
    !Writing(pc) && !pc.Done?
  }

  /** What a call at a writing position appends. */
  function JobOf(env: Env, th: Thread): P.Job
    requires Writing(th.pc)
  {
    P.AppendJob(CtxOf(env, th.call), th.call.now,
                if th.pc.Submit? then th.pc.body else EventBody.Denied(StageOf(th.call), th.pc.reason))
  }

  predicate InFlight(j: Joint, x: nat) {
    x in j.flights && x in j.pg.txs && P.IsOpen(j.pg.txs[x])
  }

  predicate Busy(j: Joint, tid: nat) {
    exists x :: x in j.flights && InFlight(j, x) && j.flights[x] == tid
  }

  /** What the call is told when its transaction ends. A rollback is a backend error. */
  function Told(tx: P.Tx, answer: P.Answer): Result<AppendOutcome, StoreError>
    requires tx.job.AppendJob?
  {
    match answer
    case Committed => Ok(Appended(P.EventOf(tx)))
    case Refused(outcome) => Ok(outcome)
    case Failed(error) => Err(error)
    case RolledBack => Err(Backend)
  }

  /** Transaction `x` was open before `pg2` and has ended in it. */
  predicate Ended(pg: P.Pg, pg2: P.Pg, x: nat) {
    x in pg.txs && P.IsOpen(pg.txs[x]) && x in pg2.txs && pg2.txs[x].pc.Closed?
  }

  ghost predicate ThreadsOk(threads: map<nat, Thread>) {
    forall t :: t in threads ==> Fits(threads[t].call, threads[t].pc)
  }

  ghost predicate JointFit(j: Joint) {
    P.AllFit(j.pg) && ThreadsOk(j.threads)
  }

  /** What it is told when the answer may be lost: then all it knows is that the backend failed. */
  function Heard(tx: P.Tx, answer: P.Answer, lost: bool): Result<AppendOutcome, StoreError>
    requires tx.job.AppendJob?
  {
    if lost then Err(Backend) else Told(tx, answer)
  }

  /** The database moves on, and a call whose transaction that ended hears of it. */
  function Deliver(env: Env, j: Joint, pg2: P.Pg, x: nat, lost: bool): Joint
    requires ThreadsOk(j.threads)
  {
    if Ended(j.pg, pg2, x) && x in j.flights && j.flights[x] in j.threads && j.pg.txs[x].job.AppendJob? then
      var tid := j.flights[x];
      var th := j.threads[tid];
      var r := Heard(j.pg.txs[x], pg2.txs[x].pc.answer, lost);
      j.(pg := pg2, threads := j.threads[tid := th.(pc := Answered(env, th.call, th.pc, r))])
    else j.(pg := pg2)
  }

  function Do(h: string -> int, env: Env, j: Joint, a: Move): Joint
    requires JointFit(j)
  {
    match a
    case Enter(tid, call) =>
      if tid in j.threads then j else j.(threads := j.threads[tid := Thread(call, Pc.Start)])
    case Read(tid) =>
      if tid !in j.threads || !Reading(j.threads[tid].pc) then j
      else
        var th := j.threads[tid];
        j.(threads := j.threads[tid := th.(pc := StepCall(env, Seen(j.pg.db), th.call, th.pc).1)])
    case Send(tid, x) =>
      if tid !in j.threads || !Writing(j.threads[tid].pc) || Busy(j, tid) || x in j.pg.txs then j
      else j.(pg := P.Act(h, j.pg, P.Open(x, JobOf(env, j.threads[tid]))), flights := j.flights[x := tid])
    case Withdraw(x, mandate) =>
      if x in j.pg.txs then j else j.(pg := P.Act(h, j.pg, P.Open(x, P.RevokeJob(mandate))))
    case Statement(x, lost) => Deliver(env, j, P.Act(h, j.pg, P.Go(x)), x, lost)
    case Drop(x) => Deliver(env, j, P.Act(h, j.pg, P.Abort(x)), x, false)
  }

  lemma DoFits(h: string -> int, env: Env, j: Joint, a: Move)
    requires JointFit(j)
    ensures JointFit(Do(h, env, j, a))
  {
    hide P.AllFit, P.Act, StepCall, Answered, JobOf;
    match a
    case Enter(_, _) =>
    case Read(_) =>
    case Send(tid, x) => if tid in j.threads && Writing(j.threads[tid].pc) {
      P.ActFits(h, j.pg, P.Open(x, JobOf(env, j.threads[tid])));
    }
    case Withdraw(x, mandate) => P.ActFits(h, j.pg, P.Open(x, P.RevokeJob(mandate)));
    case Statement(x, _) => P.ActFits(h, j.pg, P.Go(x));
    case Drop(x) => P.ActFits(h, j.pg, P.Abort(x));
  }

  function Play(h: string -> int, env: Env, moves: seq<Move>): (j: Joint)
    ensures JointFit(j)
  {
    if moves == [] then QUIET
    else
      var j := Play(h, env, DropLast(moves));
      DoFits(h, env, j, Last(moves));
      Do(h, env, j, Last(moves))
  }

  // ----- the interleaving of calls it amounts to -----

  /** What one move is to the engine: a step of a call that read or whose append committed,
      a revocation that committed, an append turned down or whose answer was lost, or nothing
      yet. */
  function ShadowOf(h: string -> int, env: Env, j: Joint, a: Move): seq<Action>
    requires JointFit(j)
  {
    match a
    case Enter(tid, call) => [Begin(tid, call)]
    case Read(tid) => if tid in j.threads && Reading(j.threads[tid].pc) then [Go(tid)] else []
    case Send(_, _) => []
    case Withdraw(_, _) => []
    case Statement(x, lost) => ShadowOfEnd(j, P.Act(h, j.pg, P.Go(x)), x, lost)
    case Drop(x) => ShadowOfEnd(j, P.Act(h, j.pg, P.Abort(x)), x, false)
  }

  function ShadowOfEnd(j: Joint, pg2: P.Pg, x: nat, lost: bool): seq<Action> {
    if !Ended(j.pg, pg2, x) then []
    else
      var tx, answer := j.pg.txs[x], pg2.txs[x].pc.answer;
      if tx.job.RevokeJob? then if answer.Committed? then [Revoke(tx.job.mandate)] else []
      else if x !in j.flights then []
      else if answer.Committed? then [if lost then LoseAnswer(j.flights[x]) else Go(j.flights[x])]
      else [TurnDown(j.flights[x], Heard(tx, answer, lost))]
  }

  function Shadow(h: string -> int, env: Env, moves: seq<Move>): seq<Action> {
    if moves == [] then []
    else Shadow(h, env, DropLast(moves)) + ShadowOf(h, env, Play(h, env, DropLast(moves)), Last(moves))
  }

  // ----- the two agree -----

  ghost predicate FlightsOk(env: Env, j: Joint) {
    && (forall x :: x in j.flights ==> x in j.pg.txs && j.flights[x] in j.threads)
    && (forall x :: InFlight(j, x) ==> FlightOk(env, j, x))
    && (forall x, y :: InFlight(j, x) && InFlight(j, y) && x != y ==> j.flights[x] != j.flights[y])
    && (forall x :: x in j.pg.txs && P.IsOpen(j.pg.txs[x]) && j.pg.txs[x].job.AppendJob? ==> x in j.flights)
  }

  /** The transaction is the append its call is making. */
  predicate FlightOk(env: Env, j: Joint, x: nat)
    requires InFlight(j, x)
  {
    && j.flights[x] in j.threads && Writing(j.threads[j.flights[x]].pc)
    && j.pg.txs[x].job == JobOf(env, j.threads[j.flights[x]])
  }

  ghost predicate Agree(h: string -> int, env: Env, j: Joint, sys: System) {
    && j.threads == sys.threads
    && D.PgOk(h, j.pg) && R.PayOk(j.pg, sys.world)
    && FlightsOk(env, j)
  }

  /** Reads of the committed tables are reads of the store they refine. */
  lemma {:induction false} SameMandates(pg: seq<Event>, mem: seq<Event>, c: ContextId)
    requires R.SameLog(pg, mem)
    ensures AuthorizedMandate(ChainOf(pg, c)) == AuthorizedMandate(ChainOf(mem, c))
  {
    if pg != [] {
      var i := |pg| - 1;
      assert R.Payload(pg[i]) == R.Payload(mem[i]);
      SameMandates(DropLast(pg), DropLast(mem), c);
      AuthorizedMandateSnoc(ChainOf(DropLast(pg), c), Last(pg));
      AuthorizedMandateSnoc(ChainOf(DropLast(mem), c), Last(mem));
    }
  }

  lemma ReadsAlike(env: Env, db: P.Db, w: World, call: Call, pc: Pc)
    requires R.Refines(db, w) && Fits(call, pc) && Reading(pc)
    ensures StepCall(env, Seen(db), call, pc).1 == StepCall(env, w, call, pc).1
    ensures StepCall(env, w, call, pc).0 == w
  {
    hide StartCall, Refusal, Verified, AuthorizedMandate, ChainOf, Solvent, R.NoSmaller;
    SameMandates(db.events, w.store.events, CtxOf(env, call));
  }

  /** What a call does next does not depend on the number or hashes of what it appended. */
  lemma AppendedAlike(
    env: Env, call: Call, pc: Pc, r: Result<AppendOutcome, StoreError>, q: Result<AppendOutcome, StoreError>)
    requires Fits(call, pc) && IsAppended(r) && IsAppended(q)
    ensures Answered(env, call, pc, r) == Answered(env, call, pc, q)
  {
  }

  lemma EndKinds(h: string -> int, db: P.Db, locks: P.Locks, t: nat, tx: P.Tx)
    requires P.Fits(tx)
    ensures var move := P.MoveOf(h, db, locks, t, tx);
            move.End? ==>
              && (move.answer.Committed? <==> tx.pc.Write? || tx.pc.WriteRevocation?)
              && (move.answer.Refused? ==> !move.answer.outcome.Appended?) && !move.answer.RolledBack?
  {
    hide ChainOf, Denials, Release, CheckTransition, CountSince, P.WriteDb, P.RevokeDb;
    match tx.pc
    case WantContext =>
    case _ =>
  }

  /** How a transaction's own statement or rollback can end it. */
  lemma EndsAs(h: string -> int, pg: P.Pg, x: nat, a: P.Action)
    requires P.AllFit(pg) && (a == P.Go(x) || a == P.Abort(x)) && Ended(pg, P.Act(h, pg, a), x)
    ensures var answer := P.Act(h, pg, a).txs[x].pc.answer;
            && (answer.Committed? <==> a.Go? && (pg.txs[x].pc.Write? || pg.txs[x].pc.WriteRevocation?))
            && (answer.Refused? ==> !answer.outcome.Appended?)
            && (answer.RolledBack? <==> a.Abort?)
  {
    hide P.MoveOf, P.UnlockAll, P.Fits;
    if a.Go? {
      EndKinds(h, pg.db, pg.locks, x, pg.txs[x]);
      P.MoveFits(h, pg.db, pg.locks, x, pg.txs[x]);
    }
  }

  /** A commit ends its transaction at once. */
  lemma WritesEnd(h: string -> int, pg: P.Pg, x: nat)
    requires P.AllFit(pg) && x in pg.txs && (pg.txs[x].pc.Write? || pg.txs[x].pc.WriteRevocation?)
    ensures Ended(pg, P.Act(h, pg, P.Go(x)), x)
  {
    hide P.MoveOf, P.UnlockAll, P.Fits;
    R.WriteEnds(h, pg.db, pg.locks, x, pg.txs[x]);
  }

  lemma OnlyMoves(h: string -> int, pg: P.Pg, x: nat, a: P.Action)
    requires P.AllFit(pg) && (a == P.Go(x) || a == P.Abort(x))
    ensures var pg2 := P.Act(h, pg, a);
            && pg2.txs.Keys == pg.txs.Keys
            && (forall y :: y in pg.txs && y != x ==> pg2.txs[y] == pg.txs[y])
            && (x in pg.txs ==> pg2.txs[x].job == pg.txs[x].job && (P.IsOpen(pg2.txs[x]) ==> P.IsOpen(pg.txs[x])))
  {
    hide P.MoveOf, P.UnlockAll, P.Fits;
    if x in pg.txs && a.Go? {
      R.MoveJob(h, pg.db, pg.locks, x, pg.txs[x]);
      ClosedWaits(h, pg, x);
    }
  }

  lemma ClosedWaits(h: string -> int, pg: P.Pg, x: nat)
    requires x in pg.txs && P.Fits(pg.txs[x])
    ensures !P.IsOpen(pg.txs[x]) ==> P.MoveOf(h, pg.db, pg.locks, x, pg.txs[x]).Wait?
  {
  }

  /** When a transaction ends, its call leaves its writing position, and no other is touched. */
  lemma DeliverFlights(env: Env, j: Joint, pg2: P.Pg, x: nat, lost: bool)
    requires ThreadsOk(j.threads) && FlightsOk(env, j)
    requires pg2.txs.Keys == j.pg.txs.Keys && (forall y :: y in j.pg.txs && y != x ==> pg2.txs[y] == j.pg.txs[y])
    requires x in j.pg.txs ==>
               pg2.txs[x].job == j.pg.txs[x].job && (P.IsOpen(pg2.txs[x]) ==> P.IsOpen(j.pg.txs[x]))
    ensures FlightsOk(env, Deliver(env, j, pg2, x, lost))
  {
    hide JobOf, Answered, Heard;
    var j2 := Deliver(env, j, pg2, x, lost);
    forall y | InFlight(j2, y)
      ensures InFlight(j, y) && FlightOk(env, j2, y)
    {
      assert FlightOk(env, j, y);
      if Ended(j.pg, pg2, x) && x in j.flights {
        assert InFlight(j, x) && y != x;
      }
    }
  }

  lemma SendFlights(env: Env, j: Joint, tid: nat, x: nat)
    requires FlightsOk(env, j) && tid in j.threads && Writing(j.threads[tid].pc)
    requires !Busy(j, tid) && x !in j.pg.txs
    ensures var pg2 := j.pg.(txs := j.pg.txs[x := P.OpenTx(JobOf(env, j.threads[tid]))]);
            FlightsOk(env, j.(pg := pg2, flights := j.flights[x := tid]))
  {
    hide JobOf;
    var pg2 := j.pg.(txs := j.pg.txs[x := P.OpenTx(JobOf(env, j.threads[tid]))]);
    var j2 := j.(pg := pg2, flights := j.flights[x := tid]);
    forall y | InFlight(j2, y)
      ensures FlightOk(env, j2, y) && (y != x ==> InFlight(j, y) && j.flights[y] != tid)
    {
      if y != x {
        assert InFlight(j, y) && FlightOk(env, j, y);
      }
    }
  }

  lemma WithdrawFlights(env: Env, j: Joint, x: nat, mandate: MandateId)
    requires FlightsOk(env, j) && x !in j.pg.txs
    ensures FlightsOk(env, j.(pg := j.pg.(txs := j.pg.txs[x := P.OpenTx(P.RevokeJob(mandate))])))
  {
    hide JobOf;
    var j2 := j.(pg := j.pg.(txs := j.pg.txs[x := P.OpenTx(P.RevokeJob(mandate))]));
    forall y | InFlight(j2, y)
      ensures InFlight(j, y) && FlightOk(env, j2, y)
    {
      assert InFlight(j, y) && FlightOk(env, j, y);
    }
  }

  lemma ThreadFlights(env: Env, j: Joint, tid: nat, th: Thread)
    requires FlightsOk(env, j) && (tid in j.threads ==> !Writing(j.threads[tid].pc))
    ensures FlightsOk(env, j.(threads := j.threads[tid := th]))
  {
    hide JobOf;
    var j2 := j.(threads := j.threads[tid := th]);
    forall y | InFlight(j2, y)
      ensures FlightOk(env, j2, y)
    {
      assert InFlight(j, y) && FlightOk(env, j, y);
    }
  }

  // ----- one move, matched -----

  /** The system after at most one more action. */
  function Follow(env: Env, sys: System, actions: seq<Action>): System
    requires ThreadsFit(sys)
  {
    if actions == [] then sys else Act(env, sys, actions[0])
  }

  lemma ExecFollow(env: Env, schedule: seq<Action>, more: seq<Action>)
    requires |more| <= 1
    ensures Exec(env, schedule + more) == Follow(env, Exec(env, schedule), more)
  {
    hide Act;
    if more == [] {
      assert schedule + more == schedule;
    } else {
      assert more == [more[0]];
      SnocParts(schedule, more[0]);
    }
  }

  lemma EnterAgrees(h: string -> int, env: Env, j: Joint, sys: System, tid: nat, call: Call)
    requires JointFit(j) && ThreadsFit(sys) && Agree(h, env, j, sys)
    ensures Agree(h, env, Do(h, env, j, Enter(tid, call)), Act(env, sys, Begin(tid, call)))
  {
    hide D.PgOk, R.PayOk, FlightsOk, P.AllFit;
    if tid !in j.threads {
      ThreadFlights(env, j, tid, Thread(call, Pc.Start));
    }
  }

  lemma ReadAgrees(h: string -> int, env: Env, j: Joint, sys: System, tid: nat)
    requires JointFit(j) && ThreadsFit(sys) && Agree(h, env, j, sys)
    requires tid in j.threads && Reading(j.threads[tid].pc)
    ensures Agree(h, env, Do(h, env, j, Read(tid)), Act(env, sys, Go(tid)))
  {
    hide D.PgOk, FlightsOk, P.AllFit, StepCall, R.Refines, R.AllPayable, R.BudgetsKnown, R.NeverCorrupt;
    var th := j.threads[tid];
    ReadsAlike(env, j.pg.db, sys.world, th.call, th.pc);
    ThreadFlights(env, j, tid, th.(pc := StepCall(env, Seen(j.pg.db), th.call, th.pc).1));
  }

  /** Opening a transaction changes no table. */
  lemma OpenAgrees(h: string -> int, pg: P.Pg, w: World, x: nat, job: P.Job)
    requires P.AllFit(pg) && D.PgOk(h, pg) && R.PayOk(pg, w) && R.Payable(job) && x !in pg.txs
    ensures var pg2 := P.Act(h, pg, P.Open(x, job));
            && pg2 == pg.(txs := pg.txs[x := P.OpenTx(job)]) && D.PgOk(h, pg2) && R.PayOk(pg2, w)
  {
    hide D.PgOk, R.PayOk, P.AllFit;
    D.ActOk(h, pg, P.Open(x, job));
    R.ActPays(h, pg, w, P.Open(x, job));
    C.RunNothing(w);
  }

  lemma SendAgrees(h: string -> int, env: Env, j: Joint, sys: System, tid: nat, x: nat)
    requires JointFit(j) && SystemOk(env, sys) && Agree(h, env, j, sys)
    requires tid in j.threads && Writing(j.threads[tid].pc) && !Busy(j, tid) && x !in j.pg.txs
    ensures Agree(h, env, Do(h, env, j, Send(tid, x)), sys)
  {
    hide D.PgOk, R.PayOk, FlightsOk, P.AllFit, P.Act, WorldOk, EventsOk, PcOk, Busy;
    var th := j.threads[tid];
    JobPayable(env, sys.world, th);
    OpenAgrees(h, j.pg, sys.world, x, JobOf(env, th));
    SendFlights(env, j, tid, x);
  }

  /** The engine submits no negative amount. */
  lemma JobPayable(env: Env, w: World, th: Thread)
    requires Fits(th.call, th.pc) && PcOk(env, w, th.call, th.pc) && Writing(th.pc)
    ensures R.Payable(JobOf(env, th))
  {
    hide PcOk, StepCall, Step;
    OpIsChargeable(env, w, th.call, th.pc);
  }

  lemma WithdrawAgrees(h: string -> int, env: Env, j: Joint, sys: System, x: nat, mandate: MandateId)
    requires JointFit(j) && Agree(h, env, j, sys) && x !in j.pg.txs
    ensures Agree(h, env, Do(h, env, j, Withdraw(x, mandate)), sys)
  {
    hide D.PgOk, R.PayOk, FlightsOk, P.AllFit, P.Act;
    OpenAgrees(h, j.pg, sys.world, x, P.RevokeJob(mandate));
    WithdrawFlights(env, j, x, mandate);
  }

  // ----- a transaction's statement, matched -----

  lemma EndAgrees(h: string -> int, env: Env, j: Joint, sys: System, x: nat, a: P.Action, lost: bool)
    requires JointFit(j) && ThreadsFit(sys) && Agree(h, env, j, sys) && (a == P.Go(x) || a == P.Abort(x))
    ensures var pg2 := P.Act(h, j.pg, a);
            Agree(h, env, Deliver(env, j, pg2, x, lost), Follow(env, sys, ShadowOfEnd(j, pg2, x, lost)))
  {
    hide D.PgOk, R.PayOk, FlightsOk, P.AllFit, P.Act, Act, FlightOk, InFlight;
    var pg2 := P.Act(h, j.pg, a);
    OnlyMoves(h, j.pg, x, a);
    DeliverFlights(env, j, pg2, x, lost);
    D.ActOk(h, j.pg, a);
    R.ActPays(h, j.pg, sys.world, a);
    var w2 := Run(sys.world, R.OpsOf(j.pg, a));
    WorldFollows(h, env, j, sys, x, a, lost);
    ThreadsFollow(h, env, j, sys, x, a, lost);
  }

  /** The committed operation, if any, is the operation the shadowed action performs. */
  lemma WorldFollows(h: string -> int, env: Env, j: Joint, sys: System, x: nat, a: P.Action, lost: bool)
    requires JointFit(j) && ThreadsFit(sys) && Agree(h, env, j, sys) && (a == P.Go(x) || a == P.Abort(x))
    ensures Follow(env, sys, ShadowOfEnd(j, P.Act(h, j.pg, a), x, lost)).world == Run(sys.world, R.OpsOf(j.pg, a))
  {
    hide P.Act, Act, D.PgOk, R.PayOk, FlightsOk, Run, FlightOk;
    var pg2 := P.Act(h, j.pg, a);
    if x in j.pg.txs && a.Go? && (j.pg.txs[x].pc.Write? || j.pg.txs[x].pc.WriteRevocation?) {
      WritesEnd(h, j.pg, x);
      EndsAs(h, j.pg, x, a);
      if j.pg.txs[x].pc.Write? {
        AppendFollows(h, env, j, sys, x);
      } else {
        RevokeFollows(env, j.pg, sys, x);
      }
    } else {
      C.RunNothing(sys.world);
      if Ended(j.pg, pg2, x) {
        EndsAs(h, j.pg, x, a);
        if x in j.flights && j.pg.txs[x].job.AppendJob? {
          TurnDownKeepsWorld(env, sys, j.flights[x], Heard(j.pg.txs[x], pg2.txs[x].pc.answer, lost));
        }
      }
    }
  }

  lemma AppendFollows(h: string -> int, env: Env, j: Joint, sys: System, x: nat)
    requires JointFit(j) && ThreadsFit(sys) && Agree(h, env, j, sys) && x in j.pg.txs && j.pg.txs[x].pc.Write?
    ensures x in j.flights && j.pg.txs[x].job.AppendJob?
    ensures Act(env, sys, Go(j.flights[x])).world == Run(sys.world, R.OpsOf(j.pg, P.Go(x)))
    ensures Act(env, sys, LoseAnswer(j.flights[x])).world == Run(sys.world, R.OpsOf(j.pg, P.Go(x)))
  {
    hide Answered, StepCall, Step, D.PgOk, R.PayOk, Run;
    var tx := j.pg.txs[x];
    R.FitsJobs(tx);
    assert InFlight(j, x) && FlightOk(env, j, x);
    R.RunOne(sys.world, DoAppend(tx.job.ctx, tx.job.at, tx.job.body));
    GoAppends(env, sys.world, j.threads[j.flights[x]]);
  }

  lemma RevokeFollows(env: Env, pg: P.Pg, sys: System, x: nat)
    requires P.AllFit(pg) && ThreadsFit(sys) && x in pg.txs && pg.txs[x].pc.WriteRevocation?
    ensures pg.txs[x].job.RevokeJob?
    ensures Act(env, sys, Revoke(pg.txs[x].job.mandate)).world == Run(sys.world, R.OpsOf(pg, P.Go(x)))
  {
    hide Step, Run;
    R.FitsJobs(pg.txs[x]);
    R.RunOne(sys.world, DoRevoke(pg.txs[x].job.mandate));
  }

  lemma TurnDownKeepsWorld(env: Env, sys: System, tid: nat, r: Result<AppendOutcome, StoreError>)
    requires ThreadsFit(sys)
    ensures Act(env, sys, TurnDown(tid, r)).world == sys.world
  {
    hide Answered;
  }

  lemma GoAppends(env: Env, w: World, th: Thread)
    requires Fits(th.call, th.pc) && Writing(th.pc)
    ensures var job := JobOf(env, th);
            StepCall(env, w, th.call, th.pc) ==
            (Step(w, DoAppend(job.ctx, job.at, job.body)),
             Answered(env, th.call, th.pc, Append(w.store, job.ctx, job.at, job.body).1))
  {
    hide Append, AfterSubmit, AfterDenial;
  }

  lemma ThreadsFollow(h: string -> int, env: Env, j: Joint, sys: System, x: nat, a: P.Action, lost: bool)
    requires JointFit(j) && ThreadsFit(sys) && Agree(h, env, j, sys) && (a == P.Go(x) || a == P.Abort(x))
    ensures var pg2 := P.Act(h, j.pg, a);
            Deliver(env, j, pg2, x, lost).threads == Follow(env, sys, ShadowOfEnd(j, pg2, x, lost)).threads
  {
    hide P.Act, StepCall, Step, Answered, D.PgOk, R.PayOk;
    var pg2 := P.Act(h, j.pg, a);
    if Ended(j.pg, pg2, x) && j.pg.txs[x].job.AppendJob? {
      var tx := j.pg.txs[x];
      assert InFlight(j, x) && FlightOk(env, j, x);
      var th := j.threads[j.flights[x]];
      EndsAs(h, j.pg, x, a);
      if pg2.txs[x].pc.answer.Committed? {
        CommitFollows(h, env, j, sys, x);
      }
    }
  }

  lemma CommitFollows(h: string -> int, env: Env, j: Joint, sys: System, x: nat)
    requires JointFit(j) && ThreadsFit(sys) && Agree(h, env, j, sys)
    requires InFlight(j, x) && FlightOk(env, j, x) && j.pg.txs[x].pc.Write? && j.pg.txs[x].job.AppendJob?
    ensures var th := j.threads[j.flights[x]];
            StepCall(env, sys.world, th.call, th.pc).1
              == Answered(env, th.call, th.pc, Told(j.pg.txs[x], P.Committed))
  {
    hide StepCall, Answered, Append, R.BudgetKnown, D.TxKnown, D.DbOk, R.Refines, JobOf, R.Payable;
    var tx, th := j.pg.txs[x], j.threads[j.flights[x]];
    R.CommitAccepted(j.pg.db, sys.world, tx);
    GoAppends(env, sys.world, th);
    var r := Append(sys.world.store, tx.job.ctx, tx.job.at, tx.job.body).1;
    AppendedAlike(env, th.call, th.pc, r, Told(tx, P.Committed));
  }

  // ----- every joint run -----

  lemma DoAgrees(h: string -> int, env: Env, j: Joint, sys: System, a: Move)
    requires JointFit(j) && SystemOk(env, sys) && Agree(h, env, j, sys)
    ensures |ShadowOf(h, env, j, a)| <= 1
    ensures Agree(h, env, Do(h, env, j, a), Follow(env, sys, ShadowOf(h, env, j, a)))
  {
    hide Agree, P.Act, Act, WorldOk, PcsOk, EventsOk, Deliver, Busy;
    SameThreads(h, env, j, sys);
    match a
    case Enter(tid, call) => EnterAgrees(h, env, j, sys, tid, call);
    case Read(tid) => if tid in j.threads && Reading(j.threads[tid].pc) { ReadAgrees(h, env, j, sys, tid); }
    case Send(tid, x) =>
      if tid in j.threads && Writing(j.threads[tid].pc) && !Busy(j, tid) && x !in j.pg.txs {
        SendAgrees(h, env, j, sys, tid, x);
      }
    case Withdraw(x, mandate) => if x !in j.pg.txs { WithdrawAgrees(h, env, j, sys, x, mandate); }
    case Statement(x, lost) => EndAgrees(h, env, j, sys, x, P.Go(x), lost);
    case Drop(x) => EndAgrees(h, env, j, sys, x, P.Abort(x), false);
  }

  lemma SameThreads(h: string -> int, env: Env, j: Joint, sys: System)
    requires Agree(h, env, j, sys)
    ensures j.threads == sys.threads
  {
  }

  lemma QuietAgrees(h: string -> int, env: Env)
    ensures Agree(h, env, QUIET, IDLE)
  {
    hide D.PgOk, R.PayOk;
    D.StartOk(h);
    C.StartPays();
  }

  /** However calls, their transactions' statements, rollbacks and revocations interleave over
      PostgreSQL, the calls stand exactly where some interleaving of calls over the in-memory
      store, which may also turn appends down, leaves them, and the committed tables refine
      that store. So every claim about those interleavings holds here. */
  lemma {:induction false} JointIsInterleaving(h: string -> int, env: Env, moves: seq<Move>)
    ensures Agree(h, env, Play(h, env, moves), Exec(env, Shadow(h, env, moves)))
  {
    hide Agree, Do, Act, SystemOk, ShadowOf;
    if moves == [] {
      QuietAgrees(h, env);
    } else {
      var front := DropLast(moves);
      JointIsInterleaving(h, env, front);
      EveryInterleaving(env, Shadow(h, env, front));
      var j, sys := Play(h, env, front), Exec(env, Shadow(h, env, front));
      DoAgrees(h, env, j, sys, Last(moves));
      ExecFollow(env, Shadow(h, env, front), ShadowOf(h, env, j, Last(moves)));
    }
  }

  // ----- the schedule of statements it amounts to -----

  /** What one move is to the database. */
  function StatementOf(env: Env, j: Joint, a: Move): seq<P.Action> {
    match a
    case Enter(_, _) => []
    case Read(_) => []
    case Send(tid, x) =>
      if tid !in j.threads || !Writing(j.threads[tid].pc) || Busy(j, tid) || x in j.pg.txs then []
      else [P.Open(x, JobOf(env, j.threads[tid]))]
    case Withdraw(x, mandate) => if x in j.pg.txs then [] else [P.Open(x, P.RevokeJob(mandate))]
    case Statement(x, _) => [P.Go(x)]
    case Drop(x) => [P.Abort(x)]
  }

  function Statements(h: string -> int, env: Env, moves: seq<Move>): seq<P.Action> {
    if moves == [] then []
    else Statements(h, env, DropLast(moves)) + StatementOf(env, Play(h, env, DropLast(moves)), Last(moves))
  }

  lemma DoIsStatement(h: string -> int, env: Env, j: Joint, a: Move)
    requires JointFit(j)
    ensures |StatementOf(env, j, a)| <= 1
    ensures var more := StatementOf(env, j, a);
            Do(h, env, j, a).pg == if more == [] then j.pg else P.Act(h, j.pg, more[0])
  {
    hide P.Act, StepCall, Answered, Busy, JobOf, Heard, P.AllFit;
  }

  /** The database in a joint run is one the PostgreSQL store's own claims are about. */
  lemma {:induction false} JointIsSchedule(h: string -> int, env: Env, moves: seq<Move>)
    ensures Play(h, env, moves).pg == P.Exec(h, Statements(h, env, moves))
  {
    hide Do, P.Act, StatementOf;
    if moves != [] {
      var front := DropLast(moves);
      JointIsSchedule(h, env, front);
      var j := Play(h, env, front);
      DoIsStatement(h, env, j, Last(moves));
      var more := StatementOf(env, j, Last(moves));
      if more == [] {
        assert Statements(h, env, front) + more == Statements(h, env, front);
      } else {
        assert more == [more[0]];
        SnocParts(Statements(h, env, front), more[0]);
      }
    }
  }

  lemma {:induction false} StatementsExtend(h: string -> int, env: Env, before: seq<Move>, after: seq<Move>)
    ensures Statements(h, env, before) <= Statements(h, env, before + after)
    decreases |after|
  {
    hide Play, StatementOf;
    if after == [] {
      assert before + after == before;
    } else {
      StatementsExtend(h, env, before, DropLast(after));
      assert before + after == (before + DropLast(after)) + [Last(after)];
      SnocParts(before + DropLast(after), Last(after));
    }
  }
}
