/** The interleaving in which a healthy store is reported corrupt: a retry reads its record,
    the context expires and is pruned, and the retry finds no authorization in the log. */
module CorruptReport {
  import opened Prelude
  import opened Domain
  import opened Lifecycle
  import opened Scopes
  import opened Events
  import opened Evidence
  import opened Bookkeeping
  import opened StoreRuns
  import opened Engine
  import opened EngineRuns
  import DelegatedRuns

  /** A first purchase, a retry of it, an expiry, and a moment after both. */
  datatype Scene = Scene(
    mandate: Mandate, cart: Cart, key: string, bought: Time, retried: Time, expired: Time, before: Time)

  function Buy(x: Scene): Call {
    Call.Authorize(x.bought, x.mandate, x.cart, x.key)
  }

  function Retry(x: Scene): Call {
    Call.Authorize(x.retried, x.mandate, x.cart, x.key)
  }

  function Ctx(env: Env, x: Scene): ContextId {
    CtxOf(env, Buy(x))
  }

  /** The engine grants the purchase on an empty store, and the prune is of a later moment
      than the expiry. */
  predicate Granted(env: Env, x: Scene) {
    && Verified(env, x.mandate) && env.trusted(x.mandate.body.principal, x.mandate.signer)
    && Admits(x.mandate.body.scope, x.cart.claims, x.cart.attestation, x.bought)
    && DelegatedRuns.Affordable(x.mandate, x.cart)
    && x.expired < x.before
  }

  function Body(x: Scene): EventBody {
    EventBody.Authorized(x.mandate, x.cart, x.key)
  }

  /** The store once the purchase is authorized, and once it has expired. */
  function Bought(env: Env, x: Scene): World {
    AppendWorld(START, Ctx(env, x), x.bought, Body(x))
  }

  function Lapsed(env: Env, x: Scene): World {
    AppendWorld(Bought(env, x), Ctx(env, x), x.expired, EventBody.Expired)
  }

  function FirstRecord(env: Env, x: Scene): Record {
    NewRecord(Ctx(env, x), x.mandate, x.cart)
  }

  lemma BoughtIs(env: Env, x: Scene)
    requires Granted(env, x)
    ensures var w := Bought(env, x);
            && IsAppended(Append(EMPTY, Ctx(env, x), x.bought, Body(x)).1)
            && w.store.books.records == map[Ctx(env, x) := FirstRecord(env, x)]
            && w.store.books.reserved == map[x.mandate.body.id := x.cart.claims.total]
            && |w.store.events| == 1 && w.store.events[0].ctx == Ctx(env, x)
  {
    hide Append, NewRecord, Admits;
    DelegatedRuns.AuthorizedNeeds(EMPTY, Ctx(env, x), x.bought, Body(x));
    AppendEffect(EMPTY, Ctx(env, x), x.bought, Body(x));
  }

  lemma LapsedIs(env: Env, x: Scene)
    requires Granted(env, x)
    ensures var w := Lapsed(env, x);
            && IsAppended(Append(Bought(env, x).store, Ctx(env, x), x.expired, EventBody.Expired).1)
            && Ctx(env, x) in w.store.books.records && IsTerminal(w.store.books.records[Ctx(env, x)].state)
            && ChainOf(w.store.events, Ctx(env, x)) != [] && Last(ChainOf(w.store.events, Ctx(env, x))).at == x.expired
  {
    hide Append, ChainOf, Granted, Bought;
    BoughtIs(env, x);
    var w := Bought(env, x);
    DelegatedRuns.MoveNeeds(w.store, Ctx(env, x), x.expired, EventBody.Expired);
    AppendEffect(w.store, Ctx(env, x), x.expired, EventBody.Expired);
    ChainOfSnoc(w.store.events, NextEvent(w.store, Ctx(env, x), x.expired, EventBody.Expired), Ctx(env, x));
  }

  lemma PrunedIs(env: Env, x: Scene)
    requires Granted(env, x)
    ensures AuthorizedMandate(ChainOf(Step(Lapsed(env, x), DoPrune(x.before)).store.events, Ctx(env, x))).None?
  {
    hide Lapsed, ChainOf, Admits, PruneTimes;
    LapsedIs(env, x);
    var w := Lapsed(env, x);
    var c := Ctx(env, x);
    ChainOfMember(w.store.events, c, Last(ChainOf(w.store.events, c)));
    assert c in Gone(w.store, x.before);
    ChainOfWithout(w.store.events, Gone(w.store, x.before), c);
  }

  // ----- the schedule -----

  function Schedule(env: Env, x: Scene): seq<Action> {
    [Begin(0, Buy(x)), Go(0), Go(0), Go(0)]
    + [Begin(1, Retry(x)), Go(1)]
    + [Begin(2, Call.Expire(x.expired, Ctx(env, x))), Go(2), Go(2)]
    + [Prune(x.before), Go(1)]
  }

  lemma After(env: Env, so: seq<Action>, a: Action)
    ensures Exec(env, so + [a]) == Act(env, Exec(env, so), a)
  {
    hide Act;
    SnocParts(so, a);
  }

  lemma BuyRuns(env: Env, x: Scene)
    requires Granted(env, x)
    ensures var sys := Exec(env, [Begin(0, Buy(x)), Go(0), Go(0), Go(0)]);
            sys.world == Bought(env, x) && 1 !in sys.threads && 2 !in sys.threads
  {
    hide Exec, Append, Refusal;
    var c := Buy(x);
    var s0: seq<Action> := [];
    assert Exec(env, s0) == IDLE by { Nothing(env); }
    After(env, s0, Begin(0, c));
    var s1 := [Begin(0, c)];
    assert s0 + [Begin(0, c)] == s1;
    After(env, s1, Go(0));
    var s2 := [Begin(0, c), Go(0)];
    assert s1 + [Go(0)] == s2;
    After(env, s2, Go(0));
    var s3 := [Begin(0, c), Go(0), Go(0)];
    assert s2 + [Go(0)] == s3;
    After(env, s3, Go(0));
    assert s3 + [Go(0)] == [Begin(0, c), Go(0), Go(0), Go(0)];
  }

  lemma Nothing(env: Env)
    ensures Exec(env, []) == IDLE
  {
  }

  lemma RetryRuns(env: Env, x: Scene, so: seq<Action>)
    requires Granted(env, x) && Exec(env, so).world == Bought(env, x)
    requires 1 !in Exec(env, so).threads && 2 !in Exec(env, so).threads
    ensures var sys := Exec(env, so + [Begin(1, Retry(x)), Go(1)]);
            && sys.world == Bought(env, x) && 2 !in sys.threads
            && 1 in sys.threads && sys.threads[1] == Thread(Retry(x), Replay(FirstRecord(env, x)))
  {
    hide Exec, Bought, Admits, NewRecord;
    BoughtIs(env, x);
    After(env, so, Begin(1, Retry(x)));
    After(env, so + [Begin(1, Retry(x))], Go(1));
    assert so + [Begin(1, Retry(x))] + [Go(1)] == so + [Begin(1, Retry(x)), Go(1)];
  }

  lemma ExpireRuns(env: Env, x: Scene, so: seq<Action>)
    requires Granted(env, x) && Exec(env, so).world == Bought(env, x) && 2 !in Exec(env, so).threads
    requires 1 in Exec(env, so).threads && Exec(env, so).threads[1] == Thread(Retry(x), Replay(FirstRecord(env, x)))
    ensures var sys := Exec(env, so + [Begin(2, Call.Expire(x.expired, Ctx(env, x))), Go(2), Go(2)]);
            && sys.world == Lapsed(env, x)
            && 1 in sys.threads && sys.threads[1] == Thread(Retry(x), Replay(FirstRecord(env, x)))
  {
    hide Exec, Bought, Admits, Append;
    BoughtIs(env, x);
    var call := Call.Expire(x.expired, Ctx(env, x));
    After(env, so, Begin(2, call));
    After(env, so + [Begin(2, call)], Go(2));
    After(env, so + [Begin(2, call)] + [Go(2)], Go(2));
    assert so + [Begin(2, call)] + [Go(2)] + [Go(2)] == so + [Begin(2, call), Go(2), Go(2)];
  }

  lemma PrunedRetryRuns(env: Env, x: Scene, so: seq<Action>)
    requires Granted(env, x) && Exec(env, so).world == Lapsed(env, x)
    requires 1 in Exec(env, so).threads && Exec(env, so).threads[1] == Thread(Retry(x), Replay(FirstRecord(env, x)))
    ensures var sys := Exec(env, so + [Prune(x.before), Go(1)]);
            1 in sys.threads && sys.threads[1].pc == Done(StoreFailed(Corrupt(NoAuthorizedEvent)))
  {
    hide Exec, Lapsed, Admits, Step, AuthorizedMandate, ChainOf;
    PrunedIs(env, x);
    After(env, so, Prune(x.before));
    After(env, so + [Prune(x.before)], Go(1));
    assert so + [Prune(x.before)] + [Go(1)] == so + [Prune(x.before), Go(1)];
  }

  /** For every purchase the engine grants on an empty store: its retry ends told that the
      store is corrupt, with nothing wrong in the store. */
  lemma RetryToldCorrupt(env: Env, x: Scene)
    requires Granted(env, x)
    ensures var sys := Exec(env, Schedule(env, x));
            1 in sys.threads && sys.threads[1].pc == Done(StoreFailed(Corrupt(NoAuthorizedEvent)))
  {
    hide Exec, Granted, Bought, Lapsed;
    BuyRuns(env, x);
    var so1 := [Begin(0, Buy(x)), Go(0), Go(0), Go(0)];
    RetryRuns(env, x, so1);
    var so2 := so1 + [Begin(1, Retry(x)), Go(1)];
    ExpireRuns(env, x, so2);
    var so3 := so2 + [Begin(2, Call.Expire(x.expired, Ctx(env, x))), Go(2), Go(2)];
    PrunedRetryRuns(env, x, so3);
  }
}
