/** Store errors that calls report: which can occur in an interleaving, and exactly when a
    healthy store is reported corrupt. */
module EngineErrors {
  import opened Prelude
  import opened Domain
  import opened Lifecycle
  import opened Scopes
  import opened Events
  import opened Evidence
  import opened Bookkeeping
  import opened StoreRuns
  import opened StoreClaims
  import opened WorldGrowth
  import opened Engine
  import opened EngineRuns
  import EngineClaims
  import EngineCalls

  /** The refusals that can answer an append made at `pc`. */
  predicate Suits(pc: Pc, outcome: AppendOutcome) {
    match outcome
    case Appended(_) => true
    case BudgetExceeded(_) => pc.Submit? && pc.body.Authorized?
    case VelocityExceeded(_) => pc.Submit? && pc.body.Authorized?
    case MandateRevoked => pc.Submit? && pc.body.Authorized?
    case NonceAlreadyUsed => pc.Submit? && pc.body.Paid?
    case DenialsCapped => pc.Deny?
  }

  /** What a store that is not corrupt may answer when it turns a call's append down: a
      refusal that suits the append, or an error other than corruption, that speaks of the
      context's state only if the context exists. */
  predicate Sincere(records: map<ContextId, Record>, ctx: ContextId, pc: Pc, r: Result<AppendOutcome, StoreError>) {
    match r
    case Ok(outcome) => Suits(pc, outcome)
    case Err(Corrupt(_)) => false
    case Err(IllegalTransition(_, from, _)) => from.Some? ==> ctx in records
    case Err(_) => true
  }

  predicate SincereAction(env: Env, sys: System, a: Action) {
    a.TurnDown? && a.tid in sys.threads ==>
      Sincere(sys.world.store.books.records, CtxOf(env, sys.threads[a.tid].call), sys.threads[a.tid].pc, a.answer)
  }

  /** Wherever the store turns an append down, it does so sincerely. A schedule with no
      `TurnDown` is one. */
  ghost predicate AllSincere(env: Env, schedule: seq<Action>) {
    forall i :: 0 <= i < |schedule| ==> SincereAction(env, Exec(env, schedule[..i]), schedule[i])
  }

  predicate Tolerable(e: StoreError) {
    e.BadMoney? || e.IllegalTransition? || e.Backend? || e == Corrupt(NoAuthorizedEvent)
  }

  predicate PcSound(records: map<ContextId, Record>, ctx: ContextId, pc: Pc) {
    match pc
    case ReadAgain => ctx in records
    case Done(reply) => reply.StoreFailed? ==> Tolerable(reply.error)
    case _ => true
  }

  ghost predicate AllSound(env: Env, sys: System) {
    forall t :: t in sys.threads ==>
      PcSound(sys.world.store.books.records, CtxOf(env, sys.threads[t].call), sys.threads[t].pc)
  }

  // ----- what the in-memory store answers -----

  lemma AppendSincere(s: Store, ctx: ContextId, at: Time, pc: Pc, body: EventBody)
    requires Solvent(s.books)
    requires (pc.Submit? && body == pc.body && !body.Denied?) || (pc.Deny? && body.Denied?)
    ensures Sincere(s.books.records, ctx, pc, Append(s, ctx, at, body).1)
  {
    var r := Append(s, ctx, at, body).1;
    if r.Err? && r.error.Corrupt? {
      CorruptOnlyByRelease(s, ctx, at, body);
      ReleaseCovered(s.books, ctx);
    } else {
      hide Solvent;
      OutcomeSuits(s, ctx, at, pc, body);
    }
  }

  lemma OutcomeSuits(s: Store, ctx: ContextId, at: Time, pc: Pc, body: EventBody)
    requires (pc.Submit? && body == pc.body && !body.Denied?) || (pc.Deny? && body.Denied?)
    ensures var r := Append(s, ctx, at, body).1;
            r.Ok? || !r.error.Corrupt? ==> Sincere(s.books.records, ctx, pc, r)
  {
    hide ChainOf, CheckedAdd, CheckedSub, CountSince, AdvanceRecords, NewRecord;
  }

  lemma StartSound(env: Env, w: World, call: Call)
    requires ContextsOk(w)
    ensures PcSound(w.store.books.records, CtxOf(env, call),
                    StartCall(env, call, Get(w.store.books.records, CtxOf(env, call))))
  {
    hide ContextsOk, Verified, BindingFault;
    var ctx := CtxOf(env, call);
    if ctx in w.store.books.records {
      RecordWellFormed(w, ctx);
    }
  }

  lemma AnsweredSound(
    env: Env, records: map<ContextId, Record>, call: Call, pc: Pc, r: Result<AppendOutcome, StoreError>)
    requires Fits(call, pc) && (pc.Submit? || pc.Deny?) && Sincere(records, CtxOf(env, call), pc, r)
    ensures PcSound(records, CtxOf(env, call), Answered(env, call, pc, r))
  {
  }

  // ----- one step -----

  lemma SoundGrows(a: map<ContextId, Record>, b: map<ContextId, Record>, ctx: ContextId, pc: Pc)
    requires RecordsGrow(a, b) && PcSound(a, ctx, pc)
    ensures PcSound(b, ctx, pc)
  {
  }

  /** A writing step is told what the store answers. */
  lemma WriteAnswered(env: Env, w: World, call: Call, pc: Pc)
    requires Fits(call, pc) && (pc.Submit? || pc.Deny?) && Solvent(w.store.books)
    ensures PcSound(w.store.books.records, CtxOf(env, call), StepCall(env, w, call, pc).1)
  {
    hide Append, Sincere, PcSound, Solvent;
    var ctx := CtxOf(env, call);
    var body := if pc.Submit? then pc.body else EventBody.Denied(StageOf(call), pc.reason);
    AppendSincere(w.store, ctx, call.now, pc, body);
    AnsweredSound(env, w.store.books.records, call, pc, Append(w.store, ctx, call.now, body).1);
  }

  lemma ReadSound(env: Env, w: World, call: Call, pc: Pc)
    requires Fits(call, pc) && (pc.CheckRevoked? || pc.ReadAgain? || pc.Replay?)
    requires PcSound(w.store.books.records, CtxOf(env, call), pc)
    ensures PcSound(w.store.books.records, CtxOf(env, call), StepCall(env, w, call, pc).1)
  {
    hide Append, Refusal, Verified, AuthorizedMandate, ChainOf;
  }

  lemma StepSound(env: Env, w: World, call: Call, pc: Pc)
    requires WorldOk(w) && Fits(call, pc) && PcSound(w.store.books.records, CtxOf(env, call), pc)
    ensures PcSound(w.store.books.records, CtxOf(env, call), StepCall(env, w, call, pc).1)
  {
    hide StepCall, PcSound, ContextsOk, Spent, Solvent, Fits;
    match pc
    case Start => StartStepSound(env, w, call);
    case Done(_) => DoneStays(env, w, call, pc);
    case Submit(_) => WriteAnswered(env, w, call, pc);
    case Deny(_) => WriteAnswered(env, w, call, pc);
    case _ => ReadSound(env, w, call, pc);
  }

  lemma StartStepSound(env: Env, w: World, call: Call)
    requires ContextsOk(w)
    ensures PcSound(w.store.books.records, CtxOf(env, call), StepCall(env, w, call, Start).1)
  {
    hide StartCall, PcSound, ContextsOk;
    StartSound(env, w, call);
  }

  lemma DoneStays(env: Env, w: World, call: Call, pc: Pc)
    requires Fits(call, pc) && pc.Done?
    ensures StepCall(env, w, call, pc) == (w, pc)
  {
  }

  lemma ActSound(env: Env, sys: System, a: Action)
    requires SystemOk(env, sys) && AllSound(env, sys) && SincereAction(env, sys, a)
    ensures AllSound(env, Act(env, sys, a))
  {
    hide PcSound, StepCall, Step, Answered, WorldOk, PcOk, EventsOk, Fits, Sincere;
    var sys2 := Act(env, sys, a);
    ActGrows(env, sys, a);
    forall t | t in sys2.threads
      ensures PcSound(sys2.world.store.books.records, CtxOf(env, sys2.threads[t].call), sys2.threads[t].pc)
    {
      if t in sys.threads {
        var th := sys.threads[t];
        StepSound(env, sys.world, th.call, th.pc);
        if a.TurnDown? && a.tid == t && !IsAppended(a.answer) {
          TurnedDownSound(env, sys, t, a.answer);
        } else if a.LoseAnswer? && a.tid == t {
          LostSound(env, sys, t);
        }
        SoundGrows(sys.world.store.books.records, sys2.world.store.books.records, CtxOf(env, th.call),
                   sys2.threads[t].pc);
      } else {
        BeginSound(sys2.world.store.books.records, CtxOf(env, sys2.threads[t].call));
      }
    }
  }

  lemma BeginSound(records: map<ContextId, Record>, ctx: ContextId)
    ensures PcSound(records, ctx, Start)
  {
  }

  lemma TurnedDownSound(env: Env, sys: System, t: nat, r: Result<AppendOutcome, StoreError>)
    requires t in sys.threads && Fits(sys.threads[t].call, sys.threads[t].pc)
    requires SincereAction(env, sys, TurnDown(t, r))
    requires PcSound(sys.world.store.books.records, CtxOf(env, sys.threads[t].call), sys.threads[t].pc)
    ensures var th := sys.threads[t];
            PcSound(sys.world.store.books.records, CtxOf(env, th.call), Answered(env, th.call, th.pc, r))
  {
    hide PcSound, Sincere, Fits;
    var th := sys.threads[t];
    if th.pc.Submit? || th.pc.Deny? {
      AnsweredSound(env, sys.world.store.books.records, th.call, th.pc, r);
    } else {
      NotWriting(env, th.call, th.pc, r);
    }
  }

  lemma NotWriting(env: Env, call: Call, pc: Pc, r: Result<AppendOutcome, StoreError>)
    requires Fits(call, pc) && !pc.Submit? && !pc.Deny?
    ensures Answered(env, call, pc, r) == pc
  {
  }

  lemma LostSound(env: Env, sys: System, t: nat)
    requires t in sys.threads && Fits(sys.threads[t].call, sys.threads[t].pc)
    requires PcSound(sys.world.store.books.records, CtxOf(env, sys.threads[t].call), sys.threads[t].pc)
    ensures var th := sys.threads[t];
            PcSound(sys.world.store.books.records, CtxOf(env, th.call), Answered(env, th.call, th.pc, Err(Backend)))
  {
    hide PcSound, Fits;
    TurnedDownSound(env, sys, t, Err(Backend));
  }

  lemma ActGrows(env: Env, sys: System, a: Action)
    requires SystemOk(env, sys)
    ensures RecordsGrow(sys.world.store.books.records, Act(env, sys, a).world.store.books.records)
  {
    hide StepCall, Step, Answered, PcOk, EventsOk, Fits, RecordsGrow, ContextsOk, Spent, Solvent;
    RecordsGrowToThemselves(sys.world.store.books.records);
    match a
    case Prune(before) => StepGrows(sys.world, DoPrune(before));
    case Revoke(m) => StepGrows(sys.world, DoRevoke(m));
    case Go(t) => if t in sys.threads { WorldOfStep(env, sys.world, sys.threads[t].call, sys.threads[t].pc); }
    case LoseAnswer(t) => if t in sys.threads { WorldOfStep(env, sys.world, sys.threads[t].call, sys.threads[t].pc); }
    case _ =>
  }

  lemma SincereFront(env: Env, schedule: seq<Action>)
    requires AllSincere(env, schedule) && schedule != []
    ensures AllSincere(env, DropLast(schedule))
    ensures SincereAction(env, Exec(env, DropLast(schedule)), Last(schedule))
  {
    hide Exec, SincereAction;
    var front := DropLast(schedule);
    assert schedule[..|front|] == front;
    forall i | 0 <= i < |front|
      ensures SincereAction(env, Exec(env, front[..i]), front[i])
    {
      assert schedule[..i] == front[..i];
      assert SincereAction(env, Exec(env, schedule[..i]), schedule[i]);
    }
  }

  lemma {:induction false} EverySound(env: Env, schedule: seq<Action>)
    requires AllSincere(env, schedule)
    ensures AllSound(env, Exec(env, schedule))
  {
    hide Act, AllSound, SincereAction, SystemOk, AllSincere;
    if schedule == [] {
      IdleSound(env);
    } else {
      SincereFront(env, schedule);
      EverySound(env, DropLast(schedule));
      EveryInterleaving(env, DropLast(schedule));
      ActSound(env, Exec(env, DropLast(schedule)), Last(schedule));
    }
  }

  lemma IdleSound(env: Env)
    ensures AllSound(env, IDLE)
  {
  }

  /** In every interleaving over a sincere store, the only store errors a call can end with
      are money arithmetic, a transition another call made illegal, a failing backend, and a
      missing `Authorized` event. */
  lemma ErrorsAreTolerable(env: Env, schedule: seq<Action>, t: nat)
    requires AllSincere(env, schedule) && t in Exec(env, schedule).threads
    requires Exec(env, schedule).threads[t].pc.Done? && Exec(env, schedule).threads[t].pc.reply.StoreFailed?
    ensures Tolerable(Exec(env, schedule).threads[t].pc.reply.error)
  {
    hide Exec, AllSincere;
    EverySound(env, schedule);
    var sys := Exec(env, schedule);
    assert PcSound(sys.world.store.books.records, CtxOf(env, sys.threads[t].call), sys.threads[t].pc);
  }

  // ----- exactly when a step is answered so -----

  predicate ToldCorrupt(pc: Pc) {
    pc.Done? && pc.reply.StoreFailed? && pc.reply.error.Corrupt?
  }

  predicate ToldIllegal(pc: Pc) {
    pc.Done? && pc.reply.StoreFailed? && pc.reply.error.IllegalTransition?
  }

  lemma StartNotCorrupt(env: Env, w: World, call: Call)
    requires ContextsOk(w)
    ensures var pc := StartCall(env, call, Get(w.store.books.records, CtxOf(env, call)));
            !ToldCorrupt(pc) && !ToldIllegal(pc)
  {
    hide ContextsOk, Verified, BindingFault;
    var ctx := CtxOf(env, call);
    if ctx in w.store.books.records {
      RecordWellFormed(w, ctx);
    }
  }

  lemma AnsweredNotCorrupt(
    env: Env, records: map<ContextId, Record>, call: Call, pc: Pc, r: Result<AppendOutcome, StoreError>)
    requires Fits(call, pc) && (pc.Submit? || pc.Deny?) && Sincere(records, CtxOf(env, call), pc, r)
    ensures !ToldCorrupt(Answered(env, call, pc, r))
  {
  }

  lemma WriteNotCorrupt(env: Env, w: World, call: Call, pc: Pc)
    requires Fits(call, pc) && (pc.Submit? || pc.Deny?) && Solvent(w.store.books)
    ensures !ToldCorrupt(StepCall(env, w, call, pc).1)
  {
    hide Append, Sincere, ToldCorrupt, Solvent;
    var ctx := CtxOf(env, call);
    var body := if pc.Submit? then pc.body else EventBody.Denied(StageOf(call), pc.reason);
    AppendSincere(w.store, ctx, call.now, pc, body);
    AnsweredNotCorrupt(env, w.store.books.records, call, pc, Append(w.store, ctx, call.now, body).1);
  }

  /** The log still holds the event that authorized `c`. */
  predicate Held(w: World, c: ContextId) {
    AuthorizedMandate(ChainOf(w.store.events, c)).Some?
  }

  /** A call's next step is answered with corruption exactly when it stands between its two
      reads, the record it read was not over, and the log has lost the authorization. */
  lemma CorruptStep(env: Env, w: World, call: Call, pc: Pc)
    requires WorldOk(w) && Fits(call, pc) && !pc.Done? && PcSound(w.store.books.records, CtxOf(env, call), pc)
    ensures ToldCorrupt(StepCall(env, w, call, pc).1) <==>
            pc.Replay? && !IsTerminal(pc.rec.state) && !Held(w, CtxOf(env, call))
  {
    hide ContextsOk, Spent, Solvent, Append, StartCall, Verified, Refusal, AuthorizedMandate, ChainOf, AfterSubmit,
      AfterDenial;
    match pc
    case Start => StartNotCorrupt(env, w, call);
    case Submit(_) => WriteNotCorrupt(env, w, call, pc);
    case Deny(_) => WriteNotCorrupt(env, w, call, pc);
    case _ =>
  }

  /** And with an illegal transition exactly when it is about to append a step, other than an
      authorization, that its context can no longer take. */
  lemma IllegalStep(env: Env, w: World, call: Call, pc: Pc)
    requires WorldOk(w) && Fits(call, pc) && !pc.Done?
    ensures ToldIllegal(StepCall(env, w, call, pc).1) <==>
            pc.Submit? && !pc.body.Authorized? && !LegalStep(w.store.books, CtxOf(env, call), pc.body)
  {
    hide ContextsOk, Spent, Solvent, Append, StartCall, Verified, Refusal, AuthorizedMandate, ChainOf;
    match pc
    case Start => StartNotCorrupt(env, w, call);
    case Submit(body) => IllegalAppend(w.store, CtxOf(env, call), call.now, body);
    case Deny(reason) => IllegalAppend(w.store, CtxOf(env, call), call.now, EventBody.Denied(StageOf(call), reason));
    case _ =>
  }

  lemma IllegalAppend(s: Store, ctx: ContextId, at: Time, body: EventBody)
    ensures var r := Append(s, ctx, at, body).1;
            && (r.Err? && r.error.IllegalTransition? <==> !LegalStep(s.books, ctx, body))
            && (r.Err? && r.error.IllegalTransition? && body.Authorized? ==>
                  r.error.from.Some? && r.error.to.Authorized?)
            && (body.Denied? ==> r.Ok?)
  {
    hide ChainOf, CheckedAdd, CheckedSub, CountSince, AdvanceRecords, NewRecord, Denials;
  }

  // ----- on positions of the schedule -----

  /** What one operation does to the log's hold on an authorization. */
  lemma StepHeld(w: World, op: Op, c: ContextId)
    ensures Held(w, c) ==> (Held(Step(w, op), c) <==> !(op.DoPrune? && c in Gone(w.store, op.before)))
    ensures !Held(w, c) && c in w.store.books.records ==> !Held(Step(w, op), c)
  {
    hide Append, AuthorizedMandate, PruneTimes, ChainOf, Gone, Applied;
    match op
    case DoPrune(before) =>
      ChainOfWithout(w.store.events, Gone(w.store, before), c);
      NoneHeld();
    case DoRevoke(_) =>
    case DoAppend(ctx, at, body) => AppendHeld(w, ctx, at, body, c);
  }

  lemma NoneHeld()
    ensures AuthorizedMandate([]).None?
  {
  }

  lemma AppendHeld(w: World, ctx: ContextId, at: Time, body: EventBody, c: ContextId)
    ensures Held(w, c) ==> Held(AppendWorld(w, ctx, at, body), c)
    ensures !Held(w, c) && c in w.store.books.records ==> !Held(AppendWorld(w, ctx, at, body), c)
  {
    hide Append, AuthorizedMandate, ChainOf, Refunded, VelocityMoves, NoncesMove, RecordsAfter;
    AppendEffect(w.store, ctx, at, body);
    var (s, r) := Append(w.store, ctx, at, body);
    if IsAppended(r) {
      ChainOfSnoc(w.store.events, r.value.event, c);
      AuthorizedMandateSnoc(ChainOf(w.store.events, c), r.value.event);
    }
  }

  lemma ActHeld(env: Env, schedule: seq<Action>, a: Action, c: ContextId)
    ensures var sys := Exec(env, schedule);
            var sys2 := Act(env, sys, a);
            && (Held(sys.world, c) ==>
                  (Held(sys2.world, c) <==> !(a.Prune? && c in Gone(sys.world.store, a.before))))
            && (!Held(sys.world, c) && c in sys.world.store.books.records ==> !Held(sys2.world, c))
  {
    hide Exec, Act, Step, Held, Gone, OpOf, Chargeable;
    EngineClaims.ActIsStep(env, schedule, a);
    var sys := Exec(env, schedule);
    var op := OpOfAction(env, sys, a);
    if op.Some? {
      StepHeld(sys.world, op.value, c);
      OpKinds(env, sys, a);
    }
  }

  lemma OpKinds(env: Env, sys: System, a: Action)
    ensures var op := OpOfAction(env, sys, a);
            if a.Prune? then op == Some(DoPrune(a.before)) else op.Some? ==> !op.value.DoPrune?
  {
  }

  /** The action at `j` is a prune that drops the chain of `c`, its authorization included. */
  predicate DropsAt(env: Env, schedule: seq<Action>, c: ContextId, j: nat) {
    && j < |schedule| && schedule[j].Prune?
    && Held(Exec(env, schedule[..j]).world, c)
    && c in Gone(Exec(env, schedule[..j]).world.store, schedule[j].before)
  }

  /** The action at `i` is call `t` reading its context's record, to compare a retry with. */
  predicate LooksUpAt(env: Env, schedule: seq<Action>, t: nat, i: nat) {
    && i < |schedule| && schedule[i] == Go(t)
    && t in Exec(env, schedule[..i]).threads && !Exec(env, schedule[..i]).threads[t].pc.Replay?
    && t in Exec(env, schedule[..i + 1]).threads && Exec(env, schedule[..i + 1]).threads[t].pc.Replay?
  }

  /** Who stands between the two reads, and since when. */
  lemma ActReplay(env: Env, sys: System, a: Action, t: nat)
    requires ThreadsFit(sys) && t in Act(env, sys, a).threads && Act(env, sys, a).threads[t].pc.Replay?
    ensures t in sys.threads
    ensures if sys.threads[t].pc.Replay? then Act(env, sys, a).threads[t] == sys.threads[t]
            else
              && a == Go(t) && Act(env, sys, a).world == sys.world
              && Get(sys.world.store.books.records, CtxOf(env, sys.threads[t].call))
                   == Some(Act(env, sys, a).threads[t].pc.rec)
              && Act(env, sys, a).threads[t].call == sys.threads[t].call
  {
    hide Append, Step, Refusal, Verified, AuthorizedMandate, ChainOf, BindingFault, AppendWorld;
    if t in sys.threads {
      NeverToReplay(env, sys.threads[t].call, sys.threads[t].pc);
    }
  }

  lemma NeverToReplay(env: Env, call: Call, pc: Pc)
    requires Fits(call, pc)
    ensures forall r :: !pc.Replay? ==> !Answered(env, call, pc, r).Replay?
  {
  }

  lemma {:induction false} LookedUp(env: Env, schedule: seq<Action>, t: nat) returns (i: nat)
    requires t in Exec(env, schedule).threads && Exec(env, schedule).threads[t].pc.Replay?
    ensures LooksUpAt(env, schedule, t, i)
    ensures var th := Exec(env, schedule).threads[t];
            Get(Exec(env, schedule[..i]).world.store.books.records, CtxOf(env, th.call)) == Some(th.pc.rec)
  {
    hide Act;
    var front := DropLast(schedule);
    assert schedule[..|front|] == front && schedule[..|front| + 1] == schedule;
    ActReplay(env, Exec(env, front), Last(schedule), t);
    if Exec(env, front).threads[t].pc.Replay? {
      i := LookedUp(env, front, t);
      assert schedule[..i] == front[..i] && schedule[..i + 1] == front[..i + 1];
    } else {
      i := |front|;
    }
  }

  lemma {:induction false} LostAt(env: Env, schedule: seq<Action>, c: ContextId, i: nat) returns (j: nat)
    requires i <= |schedule| && Held(Exec(env, schedule[..i]).world, c) && !Held(Exec(env, schedule).world, c)
    ensures i <= j && DropsAt(env, schedule, c, j)
  {
    hide Act, Held, Gone;
    assert schedule[..|schedule|] == schedule;
    var front := DropLast(schedule);
    assert schedule[..|front|] == front && schedule[..i] == front[..i];
    if Held(Exec(env, front).world, c) {
      ActHeld(env, front, Last(schedule), c);
      j := |front|;
    } else {
      j := LostAt(env, front, c, i);
      assert schedule[..j] == front[..j];
    }
  }

  /** Once dropped, an authorization is not on record again. */
  lemma {:induction false} StaysLost(env: Env, schedule: seq<Action>, c: ContextId, j: nat)
    requires DropsAt(env, schedule, c, j) && c in Exec(env, schedule[..j]).world.store.books.records
    ensures !Held(Exec(env, schedule).world, c) && c in Exec(env, schedule).world.store.books.records
  {
    hide Act, Held, Gone, SystemOk;
    var front := DropLast(schedule);
    assert schedule[..|front|] == front && schedule[..j] == front[..j];
    if j < |front| {
      StaysLost(env, front, c, j);
    }
    ActHeld(env, front, Last(schedule), c);
    RecordStays(env, front, Last(schedule), c);
  }

  lemma RecordStays(env: Env, schedule: seq<Action>, a: Action, c: ContextId)
    requires c in Exec(env, schedule).world.store.books.records
    ensures c in Act(env, Exec(env, schedule), a).world.store.books.records
  {
    hide Exec, Act, SystemOk, Grows;
    EveryInterleaving(env, schedule);
    ActGrows(env, Exec(env, schedule), a);
  }

  /** Between call `t`'s reading of the record and its reading of the log, a prune drops the
      chain of `c`. */
  ghost predicate DroppedBetween(env: Env, schedule: seq<Action>, t: nat, c: ContextId) {
    exists i: nat, j: nat :: DropsAfter(env, schedule, t, c, i, j)
  }

  predicate DropsAfter(env: Env, schedule: seq<Action>, t: nat, c: ContextId, i: nat, j: nat) {
    i < j && LooksUpAt(env, schedule, t, i) && DropsAt(env, schedule, c, j)
  }

  lemma LostIsDropped(env: Env, schedule: seq<Action>, t: nat)
    requires t in Exec(env, schedule).threads && Exec(env, schedule).threads[t].pc.Replay?
    requires !IsTerminal(Exec(env, schedule).threads[t].pc.rec.state)
    requires !Held(Exec(env, schedule).world, CtxOf(env, Exec(env, schedule).threads[t].call))
    ensures DroppedBetween(env, schedule, t, CtxOf(env, Exec(env, schedule).threads[t].call))
  {
    hide Exec, Held, Gone, ContextsOk, Spent, Solvent, PcsOk, EventsOk, AuthorizedMandate, ChainOf;
    var th := Exec(env, schedule).threads[t];
    var c := CtxOf(env, th.call);
    var i := LookedUp(env, schedule, t);
    EveryInterleaving(env, schedule[..i]);
    var w := Exec(env, schedule[..i]).world;
    EngineCalls.PrunedMeansOver(w, c);
    HeldMeans(w, c);
    var j := LostAt(env, schedule, c, i);
    assert DropsAfter(env, schedule, t, c, i, j);
  }

  lemma HeldMeans(w: World, c: ContextId)
    ensures Held(w, c) <==> AuthorizedMandate(ChainOf(w.store.events, c)).Some?
  {
  }

  lemma DroppedIsLost(env: Env, schedule: seq<Action>, t: nat)
    requires t in Exec(env, schedule).threads && Exec(env, schedule).threads[t].pc.Replay?
    requires DroppedBetween(env, schedule, t, CtxOf(env, Exec(env, schedule).threads[t].call))
    ensures !Held(Exec(env, schedule).world, CtxOf(env, Exec(env, schedule).threads[t].call))
  {
    hide Exec, Held, Gone, LooksUpAt, DropsAt;
    var c := CtxOf(env, Exec(env, schedule).threads[t].call);
    var i: nat, j: nat :| DropsAfter(env, schedule, t, c, i, j);
    assert j < |schedule| && Held(Exec(env, schedule[..j]).world, c) by { DropsHeld(env, schedule, c, j); }
    HeldHasRecord(env, schedule[..j], c);
    StaysLost(env, schedule, c, j);
  }

  lemma DropsHeld(env: Env, schedule: seq<Action>, c: ContextId, j: nat)
    requires DropsAt(env, schedule, c, j)
    ensures j < |schedule| && Held(Exec(env, schedule[..j]).world, c)
  {
    hide Exec, Held, Gone;
  }

  /** A context whose authorization is in the log has a record. */
  lemma HeldHasRecord(env: Env, schedule: seq<Action>, c: ContextId)
    requires Held(Exec(env, schedule).world, c)
    ensures c in Exec(env, schedule).world.store.books.records
  {
    hide Exec, Spent, Solvent, PcsOk, EventsOk, Linked, States, RecordFrom, AuthorizedMandate, ChainOf, WellFormed,
      Path;
    EveryInterleaving(env, schedule);
    assert ContextOk(Exec(env, schedule).world, c);
  }

  /** Exactly when a healthy store is reported corrupt. In any interleaving over a sincere
      store, a call's next step is answered so if and only if the call is a retry between its
      two reads, the record it read was not over, and since that read a prune has dropped the
      context. */
  lemma CorruptExactly(env: Env, schedule: seq<Action>, t: nat)
    requires AllSincere(env, schedule) && t in Exec(env, schedule).threads && !Exec(env, schedule).threads[t].pc.Done?
    ensures var sys := Exec(env, schedule);
            var th := sys.threads[t];
            ToldCorrupt(Act(env, sys, Go(t)).threads[t].pc) <==>
            th.pc.Replay? && !IsTerminal(th.pc.rec.state) && DroppedBetween(env, schedule, t, CtxOf(env, th.call))
  {
    hide Exec, AllSincere, StepCall, Held, DroppedBetween, WorldOk, PcsOk, EventsOk, PcSound, Fits, ToldCorrupt;
    EverySound(env, schedule);
    EveryInterleaving(env, schedule);
    var sys := Exec(env, schedule);
    var th := sys.threads[t];
    CorruptStep(env, sys.world, th.call, th.pc);
    if th.pc.Replay? && !IsTerminal(th.pc.rec.state) {
      if !Held(sys.world, CtxOf(env, th.call)) {
        LostIsDropped(env, schedule, t);
      }
      if DroppedBetween(env, schedule, t, CtxOf(env, th.call)) {
        DroppedIsLost(env, schedule, t);
      }
    }
  }

  lemma DroppedEarlier(env: Env, schedule: seq<Action>, t: nat, c: ContextId)
    requires schedule != [] && DroppedBetween(env, DropLast(schedule), t, c)
    ensures DroppedBetween(env, schedule, t, c)
  {
    hide Exec, Held, Gone;
    var front := DropLast(schedule);
    var i: nat, j: nat :| DropsAfter(env, front, t, c, i, j);
    assert schedule[..i] == front[..i] && schedule[..i + 1] == front[..i + 1] && schedule[..j] == front[..j];
    assert DropsAfter(env, schedule, t, c, i, j);
  }

  /** Hence a call over a sincere store is told of corruption only if a prune dropped its
      context between its two reads. */
  lemma {:induction false} CorruptOnlyIfDropped(env: Env, schedule: seq<Action>, t: nat)
    requires AllSincere(env, schedule) && t in Exec(env, schedule).threads
    requires ToldCorrupt(Exec(env, schedule).threads[t].pc)
    ensures DroppedBetween(env, schedule, t, CtxOf(env, Exec(env, schedule).threads[t].call))
  {
    hide Act, AllSincere, DroppedBetween, SincereAction, ToldCorrupt, SystemOk;
    if schedule == [] {
      assert false;
    } else {
      var front, a := DropLast(schedule), Last(schedule);
      SincereFront(env, schedule);
      ActTold(env, front, a, t);
      if ToldCorrupt(Exec(env, front).threads[t].pc) {
        CorruptOnlyIfDropped(env, front, t);
      } else {
        CorruptExactly(env, front, t);
      }
      DroppedEarlier(env, schedule, t, CtxOf(env, Exec(env, front).threads[t].call));
    }
  }

  /** Only a call's own step can tell it of corruption. */
  lemma ActTold(env: Env, schedule: seq<Action>, a: Action, t: nat)
    requires SincereAction(env, Exec(env, schedule), a)
    requires var sys2 := Act(env, Exec(env, schedule), a); t in sys2.threads && ToldCorrupt(sys2.threads[t].pc)
    ensures var sys := Exec(env, schedule);
            && t in sys.threads && Act(env, sys, a).threads[t].call == sys.threads[t].call
            && (ToldCorrupt(sys.threads[t].pc) || (a == Go(t) && !sys.threads[t].pc.Done?))
  {
    hide Exec, StepCall, Step, Answered, Sincere, Fits;
    var sys := Exec(env, schedule);
    if t in sys.threads {
      var th := sys.threads[t];
      if a == Go(t) && th.pc.Done? {
        DoneStays(env, sys.world, th.call, th.pc);
      } else if a.TurnDown? && a.tid == t {
        if th.pc.Submit? || th.pc.Deny? {
          AnsweredNotCorrupt(env, sys.world.store.books.records, th.call, th.pc, a.answer);
        } else {
          NotWriting(env, th.call, th.pc, a.answer);
        }
      } else if a == LoseAnswer(t) {
        BackendNotCorrupt(env, th.call, th.pc);
      }
    }
  }

  lemma BackendNotCorrupt(env: Env, call: Call, pc: Pc)
    requires Fits(call, pc)
    ensures ToldCorrupt(Answered(env, call, pc, Err(Backend))) ==> ToldCorrupt(pc)
  {
  }
}
