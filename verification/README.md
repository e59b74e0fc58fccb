# Mandate ledger: a verified model

A mandate ledger lets a person sign a mandate (which merchants, how much, how often) and lets
an agent spend under it. Every purchase is a context that moves through
authorized, paid, settled, delivered, or through one of two shorter lives, and every step is an
event in a hash-linked log. This project models that system in Dafny and proves what it is for:
money is never reserved twice or released early, one payment proof pays once, refusals are
honest, evidence verifies, delegation only narrows, and the two stores and the x402 payment
rail keep these promises under every interleaving of concurrent work.

`dafny verify dfyconfig.toml` checks the whole project.

## How it is laid out

| files | what they model |
|---|---|
| Prelude, Domain, Lifecycle | options and sums, money, time, digests; the payment state machine |
| Patterns, Scopes | merchant patterns, scopes, `admits`, `is_subset_of`, delegation |
| Events, Evidence | the hash-linked log and `EvidenceBundle::verify` |
| Bookkeeping, MemoryStore | the in-memory store: what it decides, as functions, and the mutable object with its per-context index, proved against them |
| StoreRuns, StoreClaims, AppendExact, Velocity, PruneRuns, PruneEffects, DelegatedRuns | any run of appends, prunes and revocations, beside the full history that pruning cannot touch |
| Rails, Engine, Ledger | the engine's calls, as threads of separate store steps and as the methods of the ledger object |
| WorldGrowth, TokenClaims, EngineRuns, EngineClaims, EngineCalls, EngineAnswers, EngineRefusals, EngineErrors, CorruptReport | any interleaving of engine calls, revocations and prunes; tokens; what each call is due; retries; refusals; store errors |
| Postgres, PostgresLocks, PostgresData, PostgresRefines, PostgresClaims, PostgresBudgets, PostgresAnswers, PostgresLost, PostgresSlip | the PostgreSQL store's transactions, interleaved statement by statement, with rollbacks |
| PostgresEngine, PostgresEngineClaims, PostgresRefusals | engine calls over PostgreSQL, each append a transaction of its own, and the main claims carried over |
| X402Text, X402Reference, X402Rail, X402Logs, X402Claims, X402Receipts, X402Runs | the x402 rail: its text formats, its judgement of proofs and evidence, and the engine over it |

## Reading the main results

The hardest results are about whole runs. Nine of them:

- `PostgresClaims.EveryScheduleRefines` with `PostgresBudgets.EveryCommitAccepted`: however
  transactions interleave and roll back, the operations that commit, in commit order, are a run
  the in-memory store wholly accepts, ending with the same records, nonces, times, revocations
  and log contents.
- `PostgresEngine.JointIsInterleaving`: however engine calls, the statements of their
  transactions, rollbacks, lost acknowledgements and revocations interleave over PostgreSQL, the
  calls stand where some interleaving over the in-memory store leaves them, so the engine's and
  the rail's claims hold there too (`PostgresEngineClaims`).
- `AppendExact.AppendExactly`: the in-memory store takes an append exactly when what has happened
  in the run so far allows it, the books it keeps being out of the statement: a lawful next state,
  no revocation, a window and a budget with room, an unspent nonce, fewer than 32 refusals.
- `PostgresAnswers.AnswersTruly` with `PostgresAnswers.AloneExactly`: over PostgreSQL, whatever a
  transaction is told, refusals included, is true of the committed tables at the statement that
  ends it, and one that runs alone commits exactly when nothing in them is against it.
- `PostgresLost.ConservedExactly`: exact conservation, which the in-memory store has in every
  run, is not true of the PostgreSQL store. A release takes no mandate lock, so it can commit
  between an authorization's read of the reservation and its write of an absolute value, and be
  overwritten. `PostgresSlip.ReleaseOverwritten` gives the interleaving, for any two positive
  purchases under one mandate without cap or velocity, in contexts whose lock keys differ. What
  is reserved is what is live plus what such releases gave back
  (`PostgresLost.ReservedIsLiveAndLost`), and conservation holds exactly in the schedules where
  no release of a positive amount commits between the read and the commit of an authorization
  under the same mandate that itself commits.
- `PostgresLocks.EveryoneFinishes`: no schedule deadlocks, and all open transactions can finish.
- `EngineErrors.CorruptExactly`: a healthy in-memory store can be reported corrupt. A retried
  authorization reads its record and then the log, and a prune between the two can drop the
  chain. `CorruptReport.RetryToldCorrupt` gives the interleaving. Over any interleaving the
  report comes exactly when the record read was not over and a prune has dropped the context
  since. Over PostgreSQL, which does not prune, it never comes
  (`PostgresEngineClaims.NeverToldCorrupt`).
- `DelegatedRuns.ChildrenWithinExactly`: attenuation bounds each child by its parent, but the
  store does not add siblings up. The children of one parent stay together within its total cap
  in every run if and only if their own caps add up to no more than it.
- `X402Runs.ReleasedOnlyAfterExpiry`: under any interleaving of engine calls, a reservation paid
  over x402 is given back only if some call of that interleaving brought a trusted facilitator's
  terminal failure of that very payment when the rail's clock was at or past the signed
  authorization's expiry plus the grace.

Conventions. Hashes are free constructors, so distinct contents have distinct hashes without any
assumption. Signatures, signer trust, context-id derivation, EIP-55 checksums, the advisory-lock
hash, event topics, binding nonces and signature recovery are arbitrary functions. A rail is
whatever function answers the engine's expectation, except in the X402 files, where it is the
x402 rail: there, every statement that a proof or evidence was presented names a call of the
interleaving and holds of whatever that call presented, at the clock reading it presented it at.
Besides answering as the in-memory store does, the store under the engine may turn an append down
for reasons of its own, and the answer to an append it made may be lost, in which case the call is
told that the backend failed. Money is an exact integer number of 10^-28 units with the bounds of
a 96-bit decimal; time is a signed 64-bit number with saturating subtraction. Clock readings are
parameters, and nothing assumes that the clock moves forward, except where a lemma says that dates
are in order or not before a moment already pruned.

The source's comment that sequence numbers are assigned in commit order is modelled as the code
does it: the number is drawn before the commit, under the log lock, and a rollback leaves a hole.

## Model

| member | source | states |
|---|---|---|
| Lifecycle.PathShapes | crates/ml-core/src/state.rs:55-69 | the lawful state sequences are exactly the prefixes of three lives: delivery, failure and compensation, expiry |
| Patterns.NewMerchant | crates/ml-core/src/ids.rs:24-84 | a merchant id is trimmed, lower-case, 1 to 256 bytes; a string already so is taken as it is |
| Patterns.SpaceIsWhiteSpace | crates/ml-core/src/ids.rs:24-84 | the characters trimmed are the twenty-five code points of Unicode's `White_Space` |
| Patterns.MerchantExactly | crates/ml-core/src/ids.rs:24-84 | an id is read from exactly the strings that say it, in any case, with any space around it |
| Patterns.ParseCanonical | crates/ml-core/src/mandate.rs:38-57 | every pattern `parse` yields is in canonical form |
| Patterns.DisplayParses | crates/ml-core/src/mandate.rs:38-94 | parsing a printed canonical pattern returns it |
| Patterns.ParsesExactly | crates/ml-core/src/mandate.rs:38-57 | a pattern is read from exactly the strings that, trimmed and in lower case, are its printed form |
| Patterns.SubsetSound | crates/ml-core/src/mandate.rs:61-80 | a merchant the smaller pattern matches, the larger matches |
| Patterns.SubsetTransitive | crates/ml-core/src/mandate.rs:72-80 | the subset test is transitive |
| Patterns.SubsetExact | crates/ml-core/src/mandate.rs:61-80 | on parsed patterns, the subset test holds if and only if every merchant one matches the other matches, except where the smaller is too long to match any merchant |
| Patterns.LongPatternNotReported | crates/ml-core/src/mandate.rs:72-80 | the exception is real: an over-long exact pattern matches nothing, yet is not reported as a subset |
| Scopes.SoundExactly | crates/ml-core/src/mandate.rs:144-168 | `validate` passes exactly the scopes with an unreversed window, caps in their own currency and not negative, and a velocity that allows something |
| Scopes.AdmitsExactly | crates/ml-core/src/mandate.rs:174-255 | `admits` passes exactly the claims within every limit |
| Scopes.WithinExactly | crates/ml-core/src/mandate.rs:261-295 | `is_subset_of` holds exactly when, limit by limit, the parent lets through whatever the child does, and its rate is no tighter |
| Scopes.AttenuatesExactly | crates/ml-core/src/mandate.rs:317-336 | a mandate is attenuated exactly to sound scopes that narrow its own, keeping the principal and naming the parent |
| Scopes.WithinAdmits | crates/ml-core/src/mandate.rs:174-295 | what a child scope admits its parent admits, for all claims, attestations and times |
| Scopes.WithinTransitive | crates/ml-core/src/mandate.rs:261-295 | the scope order is transitive |
| Scopes.DelegationNarrows | crates/ml-core/src/mandate.rs:317-336 | through an attenuation chain of any length the last scope is within every earlier one, under the same principal |
| Scopes.DelegationAdmits | crates/ml-core/src/mandate.rs:174-336 | whatever the end of such a chain admits, every mandate up to the root admits |
| Events.NewEvent | crates/ml-core/src/event.rs:197-232 | a new event's hash verifies |
| Events.ChainParts | crates/ml-core/src/event.rs:156-167 | every event is a refusal or a state change |
| Evidence.Verify | crates/ml-core/src/evidence.rs:55-83 | the loop accepts exactly the chains whose events are all of the bundle's context, numbered upwards, joined hash to hash from the anchor and hashed over their own fields, and otherwise names the first event that is not and the first thing wrong with it |
| Evidence.FinalStateIsLast | crates/ml-core/src/evidence.rs:87-92 | `final_state` is the last state the chain moved to |
| Evidence.HashPinsHistory | crates/ml-core/src/evidence.rs:55-83 | verified chains ending in the same hash are the same chain |
| MemoryStores.MemoryStore.constructor | crates/ml-core/src/store.rs:179-193 | a new store is empty and its index valid |
| MemoryStores.MemoryStore.EventsOf | crates/ml-core/src/store.rs:310-316 | the indexed read of a chain is the log filtered by context |
| MemoryStores.MemoryStore.AuthorizedMandateOf | crates/ml-core/src/store.rs:318-326 | the indexed search finds the first authorization's mandate in the filtered log |
| MemoryStores.MemoryStore.CountDenials | crates/ml-core/src/store.rs:424-433 | the indexed count is the number of refusals in the filtered log |
| MemoryStores.MemoryStore.PreviousHash | crates/ml-core/src/store.rs:436-442 | the hash linked to is the chain's tip |
| MemoryStores.MemoryStore.Phase1 | crates/ml-core/src/store.rs:337-434 | the step-by-step checks compute the specified decision and change nothing |
| MemoryStores.MemoryStore.Fund | crates/ml-core/src/store.rs:289-302 | reserving and releasing in place; a release that fails changes nothing |
| MemoryStores.MemoryStore.Append | crates/ml-core/src/store.rs:329-498 | the in-place append has the specified answer and new state, and keeps the index exact |
| MemoryStores.MemoryStore.Prune | crates/ml-core/src/store.rs:227-258 | the in-place prune drops the specified times and chains, and rebuilds the index exactly |
| MemoryStores.MemoryStore.EventsAfter | crates/ml-core/src/store.rs:500-508 | the early-stopping loop returns the first `limit` events after a number |
| MemoryStores.MemoryStore.Revoke | crates/ml-core/src/store.rs:540-543 | revoking adds the mandate and nothing else |
| MemoryStores.BuildIndex | crates/ml-core/src/store.rs:237-257 | rebuilding in one pass lists, in order, exactly each context's log positions |
| StoreRuns.AppendEffect | crates/ml-core/src/store.rs:329-498 | an append writes exactly one event and its effects, or changes nothing |
| StoreRuns.RunContexts | crates/ml-core/src/store.rs:227-498 | after every run, each chain is an intact tail of its context's history, and the record is where that history stands |
| StoreClaims.ChainsVerify | crates/ml-core/src/evidence.rs:55-83 | after any appends and prunes every stored chain verifies |
| StoreClaims.RecordsAreReplayed | crates/ml-core/src/store.rs:460-491 | a record is what the context's full history adds up to, on one of the three lives |
| StoreClaims.EvidenceShowsState | crates/ml-core/src/evidence.rs:87-92 | evidence shows the record's state, or none once a finished context was pruned; never a wrong one |
| StoreClaims.ChainsStayShort | crates/ml-core/src/store.rs:424-433 | no stored chain exceeds 36 events |
| StoreClaims.ReservationsConserved | crates/ml-core/src/store.rs:289-302 | in every run, of any amounts, a mandate's reservation is exactly the sum over its contexts not failed, compensated or expired |
| StoreClaims.AppendNeverCorrupt | crates/ml-core/src/store.rs:289-302 | in runs of non-negative amounts no append is ever answered with a corruption error |
| StoreClaims.CapHolds | crates/ml-core/src/store.rs:366-379 | a cap shared by a mandate's authorizations is never exceeded |
| StoreClaims.NothingSpentTwice | crates/ml-core/src/store.rs:397-404 | over the whole history no two payments share a rail's nonce and no context is authorized twice |
| StoreClaims.NoncesAreReplayed | crates/ml-core/src/store.rs:456-458 | the nonces on the books are exactly those the full history spent |
| StoreClaims.RevokedForGood | crates/ml-core/src/store.rs:345-353 | once revoked, no run adds an authorization under the mandate |
| AppendExact.BooksDecide | crates/ml-core/src/store.rs:337-434 | every answer to an append means its own state of the books, these exclude each other, and an append goes through exactly when nothing in the books is against it |
| AppendExact.AppendExactly | crates/ml-core/src/store.rs:329-498 | in every run of non-negative amounts, as long as no velocity check looks back past a time a prune forgot, an append goes through exactly when the history allows it: the step stays on one of the three lives, no operation revoked the mandate, its window and its live contexts leave room, the nonce paid for no other context, and fewer than 32 refusals are stored |
| AppendExact.TurnedDownTruly | crates/ml-core/src/store.rs:337-434 | and is turned down only for a reason that is true of the history, with the true count or remainder |
| AppendExact.RevokedExactly | crates/ml-core/src/store.rs:540-543 | a mandate is revoked exactly when some operation revoked it |
| VelocityRuns.RateLimit | crates/ml-core/src/store.rs:354-364 | no window of the velocity's length, wherever it starts, ever holds more than the limit, with prunes and a clock that may run backwards |
| PruneEffects.PruneExactly | crates/ml-core/src/store.rs:237-249 | a prune drops a context's whole chain if the context has no record or a final one and its last event is dated before the moment, and otherwise keeps it whole |
| PruneEffects.PruneKeepsTables | crates/ml-core/src/store.rs:230-235 | it forgets exactly the authorization times further back than the mandate's longest window, and changes no other table |
| PruneEffects.RecentKeptExactly | crates/ml-core/src/store.rs:237-249 | all events dated at or after the moment survive exactly when no finished context's last event is dated before one of its own that is |
| PruneEffects.RecentDropped | crates/ml-core/src/store.rs:237-249 | an input on which they do not: a clock that ran back between two refusals |
| PruneEffects.RunKeepsRecent | crates/ml-core/src/store.rs:237-249 | over any run, each event of a context dated in order that is dated at or after the latest moment pruned is still in the log |
| PruneEffects.LogAscends | crates/ml-core/src/store.rs:227-258 | in every run, prunes included, the log's numbers strictly ascend |
| PruneRuns.PrunedRunAgrees | crates/ml-core/src/store.rs:227-258 | a run with prunes keeps the same records, reservations, nonces, windows and revocations as without, as long as no velocity check looks back past a time of its mandate that was forgotten |
| PruneRuns.PruneInvisible | crates/ml-core/src/store.rs:227-258 | under the documented use each append is answered as if nothing had been pruned; a mandate with nothing on record when a prune happened is bound by no condition of it |
| PruneRuns.CountAfterPrune | crates/ml-core/src/store.rs:230-235 | exactly when a prune changes a velocity count |
| PruneRuns.RefusalAfterPrune | crates/ml-core/src/store.rs:424-433 | a prune changes the answer to recording a refusal exactly when it drops a chain that already held 32 of them |
| DelegatedRuns.DelegationNeverAcceptsMore | crates/ml-core/src/store.rs:354-379 | a run the store wholly accepts under delegated mandates, each with an id of its own and from a different parent, it wholly accepts under the parents, with the same contexts and reservations |
| DelegatedRuns.ChildrenWithinExactly | crates/ml-core/src/mandate.rs:261-336 | any number of mandates attenuated from one parent together stay within its total cap, in every run of non-negative amounts in which each carries its own cap, if and only if their caps add up to no more than it |
| DelegatedRuns.SiblingsExceed | crates/ml-core/src/mandate.rs:317-336 | an input on which they do not: two children buy within their own caps, both are accepted, and together they exceed the parent's |
| WorldGrowth.TokensAvailable | crates/ml-core/src/ledger.rs:701-862 | a record the store wrote always yields its tokens; the incomplete-record branches are unreachable |
| WorldGrowth.TokensAreForever | crates/ml-core/src/ledger.rs:701-732 | what `reached` reports, it reports identically after any further run |
| TokenClaims.TokensTell | crates/ml-core/src/ledger.rs:678-862 | after any run `reached` holds exactly the tokens of the events in the context's whole history, field by field, and `resume` the token of the state the history ends in |
| Engine.StepsAdvance | crates/ml-core/src/ledger.rs:91-170 | every step of a call moves it forward, so every call ends |
| Ledgers.Ledger.Authorize | crates/ml-core/src/ledger.rs:91-276 | the method on the mutable store is the specified call, its retry path included |
| Ledgers.Ledger.RecordPayment | crates/ml-core/src/ledger.rs:285-374 | likewise for payments |
| Ledgers.Ledger.PayWith | crates/ml-core/src/ledger.rs:316-430 | likewise for a verified payment: its replay, its bindings and its append |
| Ledgers.Ledger.RecordSettlement | crates/ml-core/src/ledger.rs:438-554 | likewise for settlements and their replays |
| Ledgers.Ledger.SettleBy | crates/ml-core/src/ledger.rs:455-523 | likewise for asking the rail about a paid context |
| Ledgers.Ledger.Compensate | crates/ml-core/src/ledger.rs:559-596 | likewise for compensation |
| Ledgers.Ledger.Expire | crates/ml-core/src/ledger.rs:601-628 | likewise for expiry |
| Ledgers.Ledger.RecordDelivery | crates/ml-core/src/ledger.rs:633-670 | likewise for delivery |
| Ledgers.Ledger.Deny | crates/ml-core/src/ledger.rs:764-794 | likewise for recording a refusal |
| EngineRuns.EveryInterleaving | crates/ml-core/src/ledger.rs:91-670 | in every interleaving the store is in order, every answer given stays true, and every event was written by a call of its own context, clock reading and stage with reason to write exactly it, whatever appends the store turns down |
| EngineRuns.BindingExactly | crates/ml-core/src/ledger.rs:378-430 | a proof passes exactly if it is of the record's amount, names its context or its cart, and names no other context, cart or merchant |
| EngineClaims.InterleavingIsRun | crates/ml-core/src/mandate.rs:235-240 | every interleaving is a store run that reserves no negative amount, so every claim about such runs holds of it |
| EngineClaims.StagesTell | crates/ml-core/src/ledger.rs:764-794 | the stage a refusal is recorded under is that of the step the call would have made |
| EngineClaims.AttemptsAreContexts | crates/ml-core/src/ids.rs:118-134 | calls to authorize are for one context exactly when they agree on mandate, cart and request key, for any derivation that tells these apart |
| EngineClaims.AuthorizeRace | crates/ml-core/src/ledger.rs:91-276 | racing callers told yes hold equal tokens and presented the body and signer of the context's only authorization |
| EngineClaims.AuthorizationsAreInScope | crates/ml-core/src/mandate.rs:174-255 | in every interleaving whatever is authorized was asked for by a call whose mandate verified and whose cart, attestation and time the scope covers, limit by limit |
| EngineClaims.RevocationHolds | crates/ml-core/src/ledger.rs:91-170 | after a revocation no interleaving authorizes anything more under the mandate |
| EngineClaims.PaymentsAreWhatWasAuthorized | crates/ml-core/src/ledger.rs:285-430 | a payment is for exactly the authorized cart's total, keyed to its own context, rail and nonce |
| EngineClaims.PaymentsWereProven | crates/ml-core/src/ledger.rs:285-430 | in every interleaving each payment was proven by the call that recorded it: its rail verified a proof of the authorized amount, bound to the context or the authorized cart and to no other context, cart or merchant |
| EngineClaims.SettlementsAnswerThePayment | crates/ml-core/src/ledger.rs:438-523 | a settlement outcome is the recorded rail's answer about that very payment |
| EngineClaims.LivesAreLawful | crates/ml-core/src/ledger.rs:285-670 | every interleaving leaves each context on one of the three lives |
| EngineAnswers.CallsGetTheirDue | crates/ml-core/src/ledger.rs:91-670 | an undisturbed call of any kind is granted, refused, or told of an outage or of bad money arithmetic, each if and only if the call and the store meet its condition, stated field by field; it is told what its event or the record says, and writes exactly that event or nothing |
| EngineAnswers.FirstReasonGiven | crates/ml-core/src/ledger.rs:91-670 | of several reasons against an undisturbed call, the one it is refused for is true and is the first in a fixed order that is |
| EngineCalls.CallsNeverCorrupt | crates/ml-core/src/ledger.rs:811-862 | an undisturbed call meets no store error but money arithmetic |
| EngineErrors.ErrorsAreTolerable | crates/ml-core/src/ledger.rs:91-670 | in every interleaving the only store errors a call ends with are money arithmetic, an illegal transition, a failing backend and a missing authorization |
| EngineErrors.CorruptStep | crates/ml-core/src/ledger.rs:246-276 | a step is answered with corruption exactly when it is a retry's second read, the record read was not over and the log has no authorization |
| EngineErrors.IllegalStep | crates/ml-core/src/ledger.rs:285-670 | a step is answered with an illegal transition exactly when it is about to append one, other than an authorization, that the context can no longer take |
| EngineErrors.CorruptExactly | crates/ml-core/src/ledger.rs:230-276 | in every interleaving a call's next step reports corruption if and only if the call is between a retry's two reads, the record it read was not over, and a prune has dropped the context since |
| EngineErrors.CorruptOnlyIfDropped | crates/ml-core/src/ledger.rs:230-276 | a call that ended told of corruption had its context pruned between its two reads |
| CorruptReport.RetryToldCorrupt | crates/ml-core/src/ledger.rs:230-276 | for any purchase the engine grants, the interleaving with a retry, an expiry and a prune tells the retry that the store is corrupt |
| EngineCalls.PaymentRetried | crates/ml-core/src/ledger.rs:316-329 | in every interleaving, once a call was told a payment is recorded, any call that starts with a proof of it is told the same at its first step and writes nothing |
| EngineCalls.SettlementRetried | crates/ml-core/src/ledger.rs:532-554 | the same of a decided settlement, whatever rail or evidence the later call brings |
| EngineCalls.AuthorizeRetried | crates/ml-core/src/ledger.rs:230-276 | a retry under the granting mandate returns the same token and writes nothing until the context is over |
| EngineCalls.AuthorizeRetriedAmongOthers | crates/ml-core/src/ledger.rs:230-276 | the same step by step in every interleaving |
| EngineCalls.PaidFromItsProof | crates/ml-core/src/ledger.rs:285-374 | in every interleaving a call told a payment is recorded had its own rail recognize that payment |
| EngineRefusals.RefusalsAreHonest | crates/ml-core/src/ledger.rs:764-794 | an undisturbed refusal's reason is true of the call and the store, is recorded under its stage unless capped, and leaves every table as it was |
| EngineRefusals.RefusalsWereTrue | crates/ml-core/src/ledger.rs:91-794 | in every interleaving a call that ends refused is refused under its own context and stage, for a reason that was true at the step that decided it, unless the store itself turned the append down |
| PostgresLocks.LocksAreHeld | crates/ml-store-postgres/src/store.rs:281-295 | in every reachable state the lock tables list exactly what the transactions hold, one holder a lock |
| PostgresLocks.WaitsForward | crates/ml-store-postgres/src/store.rs:34-47 | a transaction only ever waits for one that is further along |
| PostgresLocks.SomeoneSteps | crates/ml-store-postgres/src/store.rs:34-47 | while any transaction is open, one can execute its next statement |
| PostgresLocks.StepAdvances | crates/ml-store-postgres/src/store.rs:270-605 | every statement executed uses up one of a finite number left |
| PostgresLocks.EveryoneFinishes | crates/ml-store-postgres/src/store.rs:270-605 | from any reachable state, all open transactions can run to their end |
| PostgresData.LocksKeepApart | crates/ml-store-postgres/src/store.rs:281-295 | no two transactions hold the same context, mandate, log or nonce, hash collisions included |
| PostgresData.MoveKeepsOthers | crates/ml-store-postgres/src/store.rs:297-462 | whatever one transaction does next, what the others have learned still stands |
| PostgresData.WriteRecorded | crates/ml-store-postgres/src/store.rs:464-601 | what commits is a lawful step that passed the revocation and rate checks against the tables as they are at commit |
| PostgresData.EveryScheduleOk | crates/ml-store-postgres/src/store.rs:270-605 | locks, knowledge and tables are in order after every schedule, rollbacks included |
| PostgresRefines.WriteKeepsBudget | crates/ml-store-postgres/src/store.rs:337-348 | between an authorization's read and its write only releases touch the row, and they only lower it |
| PostgresRefines.CommitAccepted | crates/ml-store-postgres/src/store.rs:464-603 | the in-memory store accepts what commits |
| PostgresRefines.CommitRefines | crates/ml-store-postgres/src/store.rs:464-603 | one commit is matched by one append to the in-memory store |
| PostgresRefines.EndAnswered | crates/ml-store-postgres/src/store.rs:482-496 | a legal release finds its reservation and never goes negative |
| PostgresClaims.EveryScheduleRefines | crates/ml-store-postgres/src/store.rs:270-605 | every schedule of non-negative amounts refines a run of the in-memory store, with reservations that are no smaller |
| PostgresClaims.ChainsVerify | crates/ml-store-postgres/src/store.rs:451-462 | every chain verifies, holds at most 32 refusals and adds up to the record |
| PostgresClaims.NothingSpentTwice | crates/ml-store-postgres/src/store.rs:356-391 | no two committed payments share a rail's nonce and no context is authorized twice |
| PostgresClaims.RevokedForGood | crates/ml-store-postgres/src/store.rs:672-689 | once a revocation commits, no authorization under the mandate ever commits, wherever those in flight had got to |
| PostgresClaims.RateLimit | crates/ml-store-postgres/src/store.rs:320-335 | the sliding-window limit holds of what commits, however authorizations race |
| PostgresClaims.NumbersVisibleInOrder | crates/ml-store-postgres/src/store.rs:438-449 | an open transaction that has drawn a number drew a higher one than every committed event's |
| PostgresClaims.TailNeverSkips | crates/ml-store-postgres/src/store.rs:607-616 | a reader polling by number has, at any moment, exactly the log's first events, without gap or repeat |
| PostgresClaims.TailCatchesUp | crates/ml-store-postgres/src/store.rs:607-616 | a poll with room for what is left returns all of it |
| PostgresBudgets.EveryCommitAccepted | crates/ml-store-postgres/src/store.rs:270-605 | each committed append is one the in-memory store, having taken those before it, accepts |
| PostgresBudgets.NeverAnsweredCorrupt | crates/ml-store-postgres/src/store.rs:482-496 | no transaction is ever answered with a corruption error |
| PostgresBudgets.CapHolds | crates/ml-store-postgres/src/store.rs:337-355 | a shared cap is never exceeded, by any interleaving of authorizations and releases |
| PostgresAnswers.AnswersTruly | crates/ml-store-postgres/src/store.rs:297-462 | in every schedule whatever an append is told is true of the committed tables at the statement that ends it: illegal step, revoked mandate, full window, row and amount above the cap, nonce of another context, 32 refusals, or, if it commits, none of these |
| PostgresAnswers.AloneExactly | crates/ml-store-postgres/src/store.rs:270-605 | from any reachable state with nothing open, a transaction that runs alone ends; an append commits exactly when nothing in the tables is against it, whatever its body, and a revocation commits |
| PostgresAnswers.TablesAreTheLog | crates/ml-store-postgres/src/store.rs:464-601 | those tables are what the committed log and revocations add up to |
| PostgresLost.ReadsKnown | crates/ml-store-postgres/src/store.rs:337-348 | what an authorization in flight read is its mandate's row now, plus what has been given back to the mandate since |
| PostgresLost.ReservedIsLiveAndLost | crates/ml-store-postgres/src/store.rs:467-496 | in every schedule what is reserved is what is live, plus, for each authorization that committed, what was given back between its read and its commit |
| PostgresLost.ConservedExactly | crates/ml-store-postgres/src/store.rs:467-496 | the reservation is never below what is live, and equal to it if and only if no release of a positive amount commits between the read and the commit of an authorization under the mandate that itself commits |
| PostgresSlip.ReleaseOverwritten | crates/ml-store-postgres/src/store.rs:467-496 | for any two positive purchases under one mandate without cap or velocity, in contexts whose lock keys differ, an interleaving leaves the expired one wholly reserved |
| PostgresEngine.ReadsAlike | crates/ml-core/src/ledger.rs:91-276 | a call reads of the committed tables what it would read of the in-memory store they refine |
| PostgresEngine.JointIsInterleaving | crates/ml-core/src/ledger.rs:91-670 | every joint interleaving of calls, transactions' statements, rollbacks, lost acknowledgements and revocations over PostgreSQL is one of calls over the in-memory store, with the same calls' positions and refining tables |
| PostgresEngine.JointIsSchedule | crates/ml-store-postgres/src/store.rs:270-605 | and its database is the one its statements alone leave, so every claim about such schedules holds of it |
| PostgresEngineClaims.AuthorizeRace | crates/ml-core/src/ledger.rs:91-276 | over PostgreSQL, racing callers told yes hold equal tokens and presented the body and signer of the only authorization the committed log holds of the context |
| PostgresEngineClaims.LivesAreLawful | crates/ml-core/src/ledger.rs:285-670 | over PostgreSQL, each committed chain verifies, adds up to its record and is on one of the three lives |
| PostgresEngineClaims.RevocationHolds | crates/ml-core/src/ledger.rs:91-170 | over PostgreSQL, once a revocation has committed no authorization under the mandate ever commits |
| PostgresEngineClaims.SettlementsAnswerThePayment | crates/ml-core/src/ledger.rs:438-523 | over PostgreSQL, a committed outcome is the recorded rail's answer about that very payment |
| PostgresEngineClaims.SettlementRetried | crates/ml-core/src/ledger.rs:532-554 | over PostgreSQL, a decided settlement is answered again at a later call's first read, and no transaction is started |
| PostgresEngineClaims.NeverToldCorrupt | crates/ml-store-postgres/src/store.rs:270-605 | over PostgreSQL, the only store errors a call ends with are money arithmetic, an illegal transition and a failing backend |
| PostgresRefusals.RefusalsWereTrue | crates/ml-core/src/ledger.rs:91-794 | over PostgreSQL, a call that ends refused was refused for a reason true of the committed tables at its own read or at the statement that ended its transaction, without exception |
| PostgresEngineClaims.PaymentsAreWhatWasAuthorized | crates/ml-core/src/ledger.rs:285-430 | over PostgreSQL, a committed payment is for exactly the authorized total |
| PostgresEngineClaims.PaymentsAreSigned | crates/ml-core/src/ledger.rs:285-430 | over PostgreSQL, each committed x402 payment was presented by some call, signed and in time |
| PostgresEngineClaims.OneAuthorizationPaysOnce | crates/ml-adapters/src/x402/rail.rs:57-95 | over PostgreSQL, no two committed payments spend the same on-chain authorization |
| PostgresEngineClaims.ReleasedOnlyAfterExpiry | crates/ml-core/src/ledger.rs:495-522 | over PostgreSQL, a paid x402 context stops counting only on a trusted terminal failure some call brought at or past expiry plus grace |
| PostgresEngineClaims.PaymentRetriedAnytime | crates/ml-adapters/src/x402/rail.rs:343-359 | over PostgreSQL, a recorded x402 payment gets its first answer again at any clock reading, and no transaction is started |
| X402Text.CanonicalPrinted | crates/ml-adapters/src/x402/fields.rs:34-47 | reading a canonical number and printing it gives the same characters |
| X402Text.PrintedNat | crates/ml-adapters/src/x402/types.rs:120-124 | a printed number is canonical and reads back |
| X402Text.ReadBytes | crates/ml-adapters/src/x402/fields.rs:59-67 | the in-place decoder fills its buffer with exactly the specified bytes, or refuses |
| X402Text.PrintedBytes | crates/ml-adapters/src/x402/fields.rs:59-67 | printed bytes read back |
| X402Text.BytesExactly | crates/ml-adapters/src/x402/fields.rs:59-67 | bytes are read from exactly the strings that spell them after `0x`, in any mixture of cases |
| X402Text.PrintedAddress | crates/ml-adapters/src/x402/types.rs:34-76 | a printed address reads back whatever the checksum rule says |
| X402Text.AddressExactly | crates/ml-adapters/src/x402/types.rs:34-49 | an address is read from exactly the strings that spell it in one case, or in both with its checksum |
| X402Text.PrintedChain | crates/ml-adapters/src/x402/types.rs:102-124 | a printed chain id reads back if and only if it is not 0 |
| X402Text.ChainExactly | crates/ml-adapters/src/x402/types.rs:102-118 | a chain is read from its printed form alone, and chain 0 not at all |
| X402Reference.PrintedParses | crates/ml-adapters/src/x402/rail.rs:91-119 | a printed reference parses to itself if and only if its chain is not 0 |
| X402Reference.AcceptsExactlyPrints | crates/ml-adapters/src/x402/rail.rs:97-119 | the accepted strings are exactly the prints of references on chains other than 0 |
| X402Reference.IdentityTells | crates/ml-adapters/src/x402/rail.rs:80-88 | one identity, one chain, token, payer and nonce |
| X402Reference.PrintTells | crates/ml-adapters/src/x402/rail.rs:91-95 | one printed reference, one payment and expiry |
| X402Rail.Uint | crates/ml-adapters/src/x402/fields.rs:34-47 | an accepted number is within 128 bits and is written in its one spelling |
| X402Rail.UintExactly | crates/ml-adapters/src/x402/fields.rs:34-47 | a number up to 128 bits is read from its printed form alone |
| X402Rail.PriceExactly | crates/ml-adapters/src/x402/fields.rs:50-56 | atomic units are priced at m exactly if they fit a 96-bit mantissa, the token has at most 28 decimals, and m in the token's symbol times 10 to its decimals is the units |
| X402Logs.UseExactly | crates/ml-adapters/src/x402/finality.rs:103-127 | a log shows the authorization used exactly if the token itself emitted it and its three topics decode to the event, the padded payer and the nonce |
| X402Logs.TransferExactly | crates/ml-adapters/src/x402/finality.rs:131-154 | a log shows a transfer exactly if the token itself emitted it, its topics decode to the event and the two padded addresses, and its data to the value |
| X402Logs.QuantityExactly | crates/ml-adapters/src/x402/finality.rs:87-93 | a block number is read from exactly the strings of up to sixteen characters after `0x` that write it in hex |
| X402Rail.PriceTells | crates/ml-adapters/src/x402/fields.rs:50-56 | one amount of a token is one number of atomic units |
| X402Claims.AccountIsMerchant | crates/ml-adapters/src/x402/types.rs:136-138 | an account id is already a normalized merchant id |
| X402Claims.AccountTells | crates/ml-adapters/src/x402/types.rs:136-138 | one account id, one chain and one address |
| X402Claims.FinalExactly | crates/ml-adapters/src/x402/rail.rs:151-285 | the rail says final exactly on a trusted facilitator's success naming this network and, where given, payer and worth, or on a successful receipt deep enough with the token's own logs of this authorization and of this worth moved to the merchant |
| X402Claims.FailedExactly | crates/ml-adapters/src/x402/rail.rs:166-232 | it says failed exactly on a trusted facilitator's terminal failure of this payment at or past expiry plus grace |
| X402Claims.PendingExactly | crates/ml-adapters/src/x402/rail.rs:151-285 | it says pending exactly on a report it does not trust, of a settlement under way or a failure too early, or on a receipt that reverted or is not deep enough, and refuses all other evidence |
| X402Claims.VerifiesExactly | crates/ml-adapters/src/x402/rail.rs:303-371 | a proof verifies, with exactly the reference, identity, amount and bindings of what was signed, if and only if its payer signed it and it is on record or valid from before now to at least six seconds from now |
| X402Claims.VerifiedPays | crates/ml-adapters/src/x402/rail.rs:303-371 | a proof that binds as the engine demands pays this money, to this merchant, for this context, signed by its payer |
| X402Claims.TermsExactly | crates/ml-adapters/src/x402/cart.rs:129-163 | a requirement yields terms exactly if it is of the exact scheme, prints a chain and an amount, names a known token, a payee that is neither the zero address nor the token, a timeout and the token's own domain |
| X402Claims.SignedExactly | crates/ml-adapters/src/x402/rail.rs:303-335 | a proof is taken as signed exactly if it is of version 2 and carries an authorization of those terms that its payer signed |
| X402Claims.AcceptedForGood | crates/ml-adapters/src/x402/rail.rs:343-359 | a proof accepted once is accepted again with the same answer at any clock reading, once on record |
| X402Receipts.UseLogRead | crates/ml-adapters/src/x402/finality.rs:103-127 | the log a token emits for an executed authorization decodes as its record of it |
| X402Receipts.TransferLogRead | crates/ml-adapters/src/x402/finality.rs:131-154 | the log a token emits for a transfer decodes as its record of it, value included |
| X402Receipts.ExecutionSettles | crates/ml-adapters/src/x402/rail.rs:235-285 | the receipt of a payment's own execution settles it once deep enough, whatever else it logged |
| X402Runs.PaymentsAreSigned | crates/ml-core/src/ledger.rs:285-430 | in every interleaving each x402 payment on record was presented by some call of it; whatever that call presented is signed by its payer, for the authorized amount, merchant and context, and was in time at the clock reading it was presented at |
| X402Runs.OneAuthorizationPaysOnce | crates/ml-adapters/src/x402/rail.rs:57-95 | no two payments on record spend the same on-chain authorization, even re-signed with another expiry |
| X402Runs.RefusedOnlyIfSpent | crates/ml-core/src/store.rs:397-404 | a payment is refused as reused only if that very authorization already paid for another context |
| X402Runs.OutcomesAreShown | crates/ml-core/src/ledger.rs:438-523 | in every interleaving each x402 outcome on record is what the evidence some call of it brought shows of the payment on record, at the clock reading it was brought at |
| X402Runs.ReleasedOnlyAfterExpiry | crates/ml-core/src/ledger.rs:495-522 | a paid x402 reservation is released only if some call of the interleaving brought a trusted facilitator's terminal failure of it, at a clock reading at or past expiry plus grace |
| X402Runs.PaymentRetriedAnytime | crates/ml-adapters/src/x402/rail.rs:343-359 | in every interleaving a recorded x402 payment presented again gets its first answer at the call's first step, without a write, at any clock reading |
| X402Runs.HonestPaymentPays | crates/ml-core/src/ledger.rs:285-430 | an undisturbed payment its payer signed, of the authorized amount, to the authorized merchant, under the context's own nonce, in time and not spent elsewhere, is recorded |

## Left out

- PostgreSQL transactions are modelled on values, as a step relation over shared tables and locks, because what matters is how their statements interleave; a transaction's private writes are applied in its committing step, and SQL text, connection pools, migrations and failing connections (beyond a rollback at any point) are not modelled.
- Hash tables' iteration order, `scan` with its filters and paging, and `last_seq`: they would only add easy members.
- Digital signatures, SHA-256, Keccak, EIP-712 digests, curve recovery and EIP-55 checksums: arbitrary functions here.
- The byte framing of context-id derivation: the engine's claims hold for any derivation function; only EngineClaims.AttemptsAreContexts supposes one that tells its arguments apart.
- Canonical JSON and the wire encodings: events, carts and proofs are structured values; the `extra` object of an x402 requirement is a predicate on the token.
- Cart normalization, the resource bounds of an x402 cart document and the asset registry's builder.
- Texts of denials and errors; a rail error keeps only whether it is a refusal or an outage.
- Confirmation counts at the very top of the 64-bit range: a receipt's head is below 2^64 - 1, so that counting its own block cannot overflow.
- The HTTP server, the sandbox, the command line, the mock and sandbox rails, and the native cart adapter.
- StoreClaims.AppendNeverCorrupt: is about runs that reserve no negative amount, which the engine guarantees (EngineClaims.InterleavingIsRun); so are AppendExact, the claims on caps and the PostgreSQL budgets and answers.
- PruneEffects.RunKeepsRecent: is about contexts whose events are dated in order, because a clock that runs back can have a recent event dropped (PruneEffects.RecentDropped).
- DelegatedRuns.DelegationNeverAcceptsMore: is about parents with one delegated mandate each, because nothing in the store ties siblings together; how far siblings can go is DelegatedRuns.ChildrenWithinExactly.
- PruneRuns.PruneInvisible: does not speak of the answer to a refusal's own append, because pruning frees room under the cap on refusals; exactly when it does is PruneRuns.RefusalAfterPrune.
- EngineCalls.CallsNeverCorrupt: is about a call nothing else interrupts; an interrupted one can be told that its transition became illegal, that the backend failed, or, when a prune falls between a retry's two reads, that the store is corrupt (EngineErrors).
- EngineRefusals.RefusalsAreHonest: is about an undisturbed call, whose tables it leaves as they were; that the reason was true in every interleaving is EngineRefusals.RefusalsWereTrue.
