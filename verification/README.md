# Blackcell in Dafny

This project models the event-sourced kernel of Blackcell, the fenced review
protocol that runs on it, and the algorithms around them, and proves what they
keep. Each module follows one part of the program.

| modules | what they model |
|---|---|
| `Wrappers`, `Sequences`, `Values`, `Events` | results, facts about sequences, the JSON values and texts of the runtime, event envelopes |
| `Ledgers`, `LedgerLaws`, `PrefixRetries`, `AppendMeaning` | the append-only ledger as a value, the specification of the batch append, its laws, and what it does field by field |
| `EventStores` | the event store as a class: the append as the code performs it, step by step over its tables |
| `LedgerReads` | the queries and how their pages fit together |
| `ReviewLifecycle`, `ReviewLaws`, `ReviewTransitions`, `ReviewFold` | leases, event payloads, the fold over a review stream, its table of transitions, and the loop that computes it |
| `ReviewRuntime`, `ReviewProgress`, `ReviewDecisions` | the scheduler's decisions, where each of them leads, and exactly when each is made |
| `ReviewProtocol`, `ReviewClients`, `ReviewCorrelation` | one submission against a ledger, any number of interleaved clients, and what ties every review to the execution event it is about |
| `ReviewService`, `ReviewOrder`, `ReconcileLaws`, `ReconcileReturns` | the scheduler as a class over a shared event store, the order it lists runs in, what reconciliation achieves, and when it returns |
| `Projections`, `ReplayMeaning`, `ProjectionLaws`, `Checkpoints` | what a replay does event by event, checkpointed replay against replay from zero, and the checkpoint table |
| `SectionCycles` | the validation of a presentation surface, with its depth-first cycle check |
| `OutputSchema`, `SchemaMeaning` | the closed output-schema validator and the declarative meaning it decides |
| `Plans`, `PlanOrder`, `PlanAdmission`, `Scheduling` | plan graphs, their topological order, plan admission, base commits, and scheduling over a whole run |
| `RunWindow` | the backward-paged window of the newest runs |
| `AttemptBudget`, `AttemptLaws`, `AttemptFailures`, `AttemptRuns`, `RunRules` | one execution attempt under its budgets, what every reported attempt satisfies, exactly how each one ends, many attempts in a row, and exactly which step may come next |
| `Artifacts` | the content-addressed artifact store under a quota |
| `NodeOutcome` | the node outcome manifest and its strict codec |

Code that changes tables, fields or local state in loops is modelled by classes
and methods with loops, each proved equal to a specification function; the
specification functions carry the theorems. What each main operation means is also stated without
those functions, by the fields, events or environment it is about (the lemmas named
`...Exactly` and `...Meaning`). Code made of expressions is modelled
by functions. Python and Rust exceptions are `Option` or `Result` values; a failed
call that rolls back is one that leaves the state unchanged.

## How to read the results

The main results, by part:

* **Ledger.** `EventStores.EventStore.AppendBatch` is the specification
  `AppendMany` for every valid ledger, and every ledger reached from the empty one
  is valid (`LedgerLaws.RunKeepsValid`). An event whose key is taken is accepted exactly
  when actor, cause, correlation, effective time, type, payload, schema version, source and
  stream are those of the stored event (`AppendMeaning.TakenKeyExactly`); one with a free key
  exactly when it is the next of its stream with a new id and a known cause
  (`FreeKeyExactly`); and the same is said of whole batches (`TwinsAcceptedExactly`,
  `MixedAcceptedExactly`) and of every error (`ErrorMeaning`). A genuine retry always returns the stored
  events (`RetryAfterRun`). Retrying a committed prefix together with a new suffix
  is exact in every case but one; `PrefixRetries.PrefixRetryExactly` gives the
  condition, and `OlderRetryIsRefused` an input that meets it.
* **Review protocol.** For any interleaving of clients acting on stale reads, every
  stored review stream is accepted by the fold (`ReachableStreamsAccepted`), a
  superseded lease never works again (`SupersededLeaseIsDead`), and a commit that
  changes the ledger had read the whole stream (`CommitReadWholeStream`). A
  *reported* success does not mean that the caller's own event is stored:
  `TwinAlsoSucceeds` shows a retry with a fresh event id that succeeds and stores
  nothing, and `OwnEventStoredExactly` says when the own event is stored. Every
  decision made in any reachable state is accepted by the fold of the stream it was made
  from (`EveryDecisionIsAccepted`) and leads to the state it is for (`ReviewProgress`,
  `ClaimProgresses`). For a claim that rests on an invariant: the scheduler compares a
  candidate's correlation with its execution event and never with the review stream, and
  the two always agree (`ReviewsCorrelated`). Over every interleaving no lease is held by the
  actor of the execution it reviews (`ReviewerIsNotExecutor`). `ReviewDecisions` says exactly
  when each worker call is decided and what it then submits, and `ReviewTransitions` which
  event continues a review from which state. Runs are listed, and reported on, in the order
  of their first claims (`RunsInOrder`, `ReportInOrder`). Reconciliation of a quiet
  reachable store returns exactly when its caller is the worker of no open review
  (`ReconcileReturnsExactly`), and then leaves no review open (`ReconcileCloses`).
* **Replay.** What is replayed, in which order, and what is refused is stated by the events
  themselves (`ReplayMeaning.ReplayableExactly`, `OutcomeExactly`). Resuming from a checkpoint agrees with replay from zero
  (`CheckpointAgrees`). The reported last stream sequence agrees in stream scope; in
  global scope it agrees exactly when something follows the checkpoint or the ledger
  is empty (`GlobalSequenceAgreesExactly`, with `GlobalSequenceIsLost` for an input that
  loses it). After any saves on a growing ledger every stored checkpoint is genuine, and
  saving a genuine one fails exactly for a reserved scope, an expected position that is
  not the current one, or a position behind it (`SavesStayGenuine`, `GenuineSaveable`).
* **Schema.** `validate_output` accepts exactly the well-formed schemas' conforming
  values, and its "schema checked first" guards are unreachable
  (`ValidateOutputMeaning`), where every type name has its own meaning (`MatchesExactly`).
  `_json_equal` is an equivalence on the values JSON can
  hold; it is not reflexive on a value that contains a non-finite number, and on no
  other (`JsonEqualEquivalence`).
* **Plans.** The order is the lexicographically least one, plan admission accepts
  exactly the acyclic plans whose writers form one chain, and over a whole run no
  ancestor's write is missing from the base a node starts from (`ReadyNodeHasBase`).
* **Run window.** The window is exactly the newest matching runs the scan can reach, and
  nothing appended later changes it (`PresentationRunWindow`, `WindowIsNewestSuffix`). Its
  flag for older runs may be raised with nothing older: `OlderFlaggedForNothingExactly`
  says when, and `OlderFlaggedForNothing` gives a ledger.
* **Budgets.** `SuccessExactly` says when an attempt succeeds, and `ChecksFailedExactly`,
  `UncleanExactly`, `FailureExactly` and `RaisedExactly` when it ends in each other way: the
  first point at which something goes wrong, over order, environment and cancellation. A success stays within
  every latency and path limit, and within every token and cost limit as far as amounts are
  known (`SuccessWithinBudgets`). What an attempt spends is not always charged: when it is
  canceled while the provider answers, or the provider call raises, the time of the call is
  lost. `ChargeCoversExactly` gives the condition, and `DroppedAnswerIsFree` and
  `SpendingGoesUncharged` an input. But such a call is always the last thing its run does
  (`UnaccountedIsLast`); so before its last step the totals of a run are exactly what it has
  spent, and a success leaves all that was really spent within the latency budget
  (`TotalsAreSpending`, `TotalsCoverSpendingExactly`, `SuccessWithinRun`).
* **Artifacts.** A stored content can be read back for ever. The quota bounds the
  recorded bytes. The bytes on disk are those and the bytes of contents that were cut
  short after their blob and never put again with success; so they may exceed the quota
  (`CutShortPutsEscapeQuota`), and `DiskWithinQuotaExactly` and `NothingLeftOverExactly`
  say when they do not.

## Modelling decisions

* Digests are a free algebra: `Sha256` of a JSON value is a constructor, so equal
  digests mean equal contents. The format strings of identifiers and idempotency
  keys are a constructor too, and so is the ISO text of a time.
* Identifier, digest and commit patterns are predicates on texts. Checks that no
  property depends on (non-blank strings, maximum lengths of free text) are left out.
* A datetime is an instant and an offset; comparisons look at the instant.
* Global positions are the last position plus one. SQLite's `autoincrement` gives
  the same numbers, because a rollback restores its counter.
* Clocks, generated ids, the answers of workers, providers and Git, and the places
  where a call is cut short are parameters.
* Node identifiers in plans are integers in the place of their rank in string order.
* Review streams are reached only through the scheduler; other writers may append
  anything to any other stream.

## Model

| member | source | states |
|---|---|---|
| `EventStores.EventStore.AppendBatch` | src/blackcell/kernel/store.py:41-76 | the transaction: for every valid ledger it commits exactly what `AppendMany` specifies and returns its events in order, or changes nothing and says why |
| `EventStores.EventStore.AppendInTransaction` | src/blackcell/kernel/store.py:78-153 | the batch append over its tables equals the specification; its stream insert and its final row-count guard cannot fail |
| `EventStores.EventStore.Append` | src/blackcell/kernel/store.py:28-39 | one event is a batch of one |
| `EventStores.EventStore.ValidateRequest` | src/blackcell/kernel/store.py:156-168 | accepts exactly the requests with a non-negative expectation for every stream, and names the fault |
| `EventStores.EventStore.LookUp` | src/blackcell/kernel/store.py:370-395 | finds, per event, what an idempotent retry returns, unless a key is reused for different content |
| `EventStores.EventStore.ReturnExisting` | src/blackcell/kernel/store.py:98-102 | a fully stored batch is returned as stored exactly when it is consecutive on every stream |
| `EventStores.EventStore.Group` | src/blackcell/kernel/store.py:104-108 | each stream's part of the batch, in order, with what is stored for it |
| `EventStores.ValidateExistingOrder` | src/blackcell/kernel/store.py:187-200 | succeeds exactly when each stream's found events follow one another without a gap |
| `EventStores.ValidateBatchStream` | src/blackcell/kernel/store.py:203-234 | accepts exactly a committed prefix that ends at the head followed by correctly numbered new events, and returns the length of that prefix |
| `EventStores.EventStore.ValidateStreams` | src/blackcell/kernel/store.py:110-128 | every stream is validated, in any order, and missing stream rows are created at zero |
| `EventStores.EventStore.InsertFresh` | src/blackcell/kernel/store.py:130-135 | stored events are returned in place and new ones inserted under every table constraint |
| `EventStores.EventStore.InsertEvent` | src/blackcell/kernel/store.py:237-275 | inserts at the next position exactly when ids, numbers and keys stay unique and the cause is known |
| `EventStores.EventStore.AdvanceHeads` | src/blackcell/kernel/store.py:137-151 | each participating stream's sequence grows by the number of its new events and no other changes |
| `LedgerLaws.AppendKeepsValid` | src/blackcell/kernel/store.py:78-153 | an append keeps every table invariant: gap-free numbers, matching heads, increasing positions, unique ids and keys, causes first |
| `LedgerLaws.RunKeepsValid` | src/blackcell/kernel/database.py:22-49 | every ledger reached by any calls keeps the table constraints and only grows |
| `LedgerLaws.RetryReturnsStored` | src/blackcell/kernel/store.py:98-102 | a keyed batch, retried on any later ledger, returns its stored events and changes nothing |
| `LedgerLaws.RetryAfterRun` | src/blackcell/kernel/store.py:99-102 | the same after any number of later appends by anyone |
| `LedgerLaws.AppendJustCommits` | src/blackcell/kernel/store.py:78-153 | an accepted keyed batch is found afterwards exactly where its expectation put it |
| `LedgerLaws.PrefixRetry` | src/blackcell/kernel/store.py:203-234 | a committed prefix with a suffix that holds something new does what the suffix alone does under advanced expectations, and returns the stored prefix first |
| `LedgerLaws.PrefixRetryStored` | src/blackcell/kernel/store.py:187-200 | when the suffix is stored too, the whole is accepted exactly when the suffix is and shares no stream with the prefix |
| `PrefixRetries.PrefixRetryExactly` | src/blackcell/kernel/store.py:98-128 | the two requests agree in every case but one: a suffix that is itself an accepted retry on a stream of the prefix |
| `PrefixRetries.OlderRetryIsRefused` | src/blackcell/kernel/store.py:187-200 | an input of that case: the suffix alone is accepted and the whole is refused |
| `LedgerLaws.AcceptedSeesOnlyItself` | src/blackcell/kernel/store.py:203-234 | a batch with something new is refused when anyone else's event stands after its expectation on one of its streams |
| `LedgerLaws.AppendOne` | src/blackcell/kernel/store.py:28-39 | one event: a stored twin with the same request is returned, a new one must be the next of its stream and insertable |
| `AppendMeaning.TakenKeyExactly` | src/blackcell/kernel/store.py:370-395 | a one-event append under a taken key returns the stored event exactly when all nine request fields agree, the payload among them, and is refused otherwise |
| `AppendMeaning.TakenKeyError` | src/blackcell/kernel/store.py:382-386 | and the error is then the idempotency conflict |
| `AppendMeaning.FreeKeyExactly` | src/blackcell/kernel/store.py:203-275 | one event without a stored twin is accepted exactly when it is the expected next of its stream with a new id and a known cause; it becomes the last row, unchanged but for its position |
| `AppendMeaning.ConflictExactly` | src/blackcell/kernel/events.py:139-154 | a batch reuses a key exactly when some event of it differs in a request field from the stored event of its key |
| `AppendMeaning.BatchAppends` | src/blackcell/kernel/store.py:130-153 | an accepted batch returns each event as its stored twin or as itself, and the log grows by exactly the new ones in batch order, numbered on |
| `AppendMeaning.TwinsAcceptedExactly` | src/blackcell/kernel/store.py:98-102 | a batch of stored keys is accepted exactly when expectations are given, every event repeats the stored one, and those follow one another without a gap on each stream |
| `AppendMeaning.MixedAcceptedExactly` | src/blackcell/kernel/store.py:104-135 | a batch with something new is accepted exactly when expectations are given, no key is reused, every event is in its place up to the head, and every new one has an unused id, number and key and a known cause |
| `AppendMeaning.ErrorMeaning` | src/blackcell/kernel/store.py:156-234 | what each error an append can raise says of the ledger, the batch and the expectations |
| `AppendMeaning.PositionsCountRows` | src/blackcell/kernel/store.py:237-275 | in every ledger reached by any calls, row i has position i + 1 |
| `LedgerReads.AfterCursor` | src/blackcell/kernel/store.py:306-320 | reading from the position of the last row read returns exactly the rows not yet read |
| `LedgerReads.ReadAllExactly` | src/blackcell/kernel/store.py:306-320 | a read of the ledger is the part of it past the given position, cut at the limit |
| `LedgerReads.AfterSequenceIsSuffix` | src/blackcell/kernel/store.py:293-294 | in a gap-free stream, reading after number n drops exactly n events |
| `LedgerReads.ReadStreamExactly` | src/blackcell/kernel/store.py:282-304 | a read is the stream as it stood at the position asked for, past the given sequence and cut at the limit; it is refused exactly for a negative cursor or a limit below one |
| `ReviewLifecycle.LeaseRoundTrip` | src/blackcell/orchestration/review_lifecycle.py:187-240 | a valid lease survives encoding and decoding |
| `ReviewLifecycle.LeaseDecodeStrict` | src/blackcell/orchestration/review_lifecycle.py:205-240 | whatever decodes has exactly the keys of a lease and is valid |
| `ReviewLifecycle.LeaseDigestInjective` | src/blackcell/orchestration/review_lifecycle.py:134-136 | leases with one digest agree in every field |
| `ReviewLifecycle.BodyRoundTrip` | src/blackcell/orchestration/review_lifecycle.py:287-510 | every valid body survives being written as an event's payload and read by the fold |
| `ReviewFold.FoldReviewLifecycle` | src/blackcell/orchestration/review_lifecycle.py:243-516 | the loop over its status, lease, baseline and digest variables computes the one-event-step fold |
| `ReviewFold.CheckHeaders` | src/blackcell/orchestration/review_lifecycle.py:250-269 | the header loop refuses only histories the fold refuses, and what it lets through is one numbered, linked chain |
| `ReviewFold.FoldBodies` | src/blackcell/orchestration/review_lifecycle.py:271-516 | the payload loop, on checked headers, is the fold |
| `ReviewFold.RefusedMeansNotAdmitted` | src/blackcell/orchestration/review_lifecycle.py:551-588 | the loop's own tests on its variables, the separate baseline among them, refuse exactly what the step on the returned state refuses |
| `ReviewLaws.PrefixClosed` | src/blackcell/orchestration/review_lifecycle.py:243-516 | every prefix of an accepted history is accepted |
| `ReviewLaws.FoldConsistent` | src/blackcell/bootstrap/verification_source.py:121-130 | attempt and fencing token count the claims; a success leaves every field its reader requires |
| `ReviewLaws.HistoryChained` | src/blackcell/orchestration/review_lifecycle.py:250-269 | an accepted history is numbered from one and each event is caused by the one before |
| `ReviewLaws.TerminalIsFinal` | src/blackcell/orchestration/review_lifecycle.py:384-510 | succeeded, failed and reconciliation-required accept no extension |
| `ReviewLaws.TerminalIsLast` | src/blackcell/orchestration/review_lifecycle.py:384-510 | a terminal prefix of an accepted history is all of it |
| `ReviewLaws.DispatchedAtMostOnce` | src/blackcell/orchestration/review_lifecycle.py:347-383 | an accepted history holds at most one provider dispatch, across every attempt |
| `ReviewLaws.SuccessFollowsDispatch` | src/blackcell/orchestration/review_lifecycle.py:347-420 | a success is the last event, right after the only dispatch, under the same lease, worker and context, and not after the lease expires |
| `ReviewLaws.LeaseOnlyAdvances` | src/blackcell/orchestration/review_lifecycle.py:287-346 | along a history the lease stays or its fencing token and expiry grow, lexicographically |
| `ReviewLaws.SupersededForever` | src/blackcell/orchestration/review_lifecycle.py:287-346 | a lease once replaced never comes back |
| `ReviewTransitions.FirstExactly` | src/blackcell/orchestration/review_lifecycle.py:250-310 | a review begins exactly with a claim of attempt one on its own stream, caused by the execution event its lease names |
| `ReviewTransitions.NextExactly` | src/blackcell/orchestration/review_lifecycle.py:287-510 | which event continues an accepted review in which status, and the state it leads to, field by field |
| `ReviewTransitions.BodyDecodeStrict` | src/blackcell/orchestration/review_lifecycle.py:287-510 | an event read as a claim, renewal, dispatch, success, failure or host event has exactly that event's payload fields |
| `ReviewTransitions.BodyReadExactly` | src/blackcell/orchestration/review_lifecycle.py:271-510 | exactly which events are read, and as what: the name for the body, its payload fields, an identifier as actor, and every digest, identifier and number in shape |
| `ReviewTransitions.EncodingSpells` | src/blackcell/bootstrap/review_runtime.py:84-317 | the payload fields each call writes, by name |
| `ReviewProgress.ActiveLeaseIsCurrent` | src/blackcell/bootstrap/review_runtime.py:366-396 | a lease that passes the check is, in every field, the stream's own, held by the caller, in the status asked for |
| `ReviewProgress.RenewalProgresses` | src/blackcell/bootstrap/review_runtime.py:154-189 | every renewal decided on leads to the same state under a lease that supersedes the old one |
| `ReviewProgress.DispatchProgresses` | src/blackcell/bootstrap/review_runtime.py:191-234 | every dispatch decided on leads to a dispatched review that holds its acceptance, context and request |
| `ReviewProgress.SuccessProgresses` | src/blackcell/bootstrap/review_runtime.py:236-283 | every success decided on leads to a succeeded review that holds every artifact it names |
| `ReviewProgress.FailureProgresses` | src/blackcell/bootstrap/review_runtime.py:285-317 | every failure decided on leads to a failed review with its code, whether or not the lease has expired |
| `ReviewProgress.ReconciliationProgresses` | src/blackcell/bootstrap/review_runtime.py:328-363 | a claimed review is requeued, a dispatched one marked ambiguous, and nothing is submitted for any other |
| `ReviewProgress.QuietSubmissionSucceeds` | src/blackcell/bootstrap/review_runtime.py:443-456 | with nobody else writing, an accepted event with a new id and a free key is stored and the stream folds to the state it leads to |
| `ReviewProgress.WholeSubmissionStores` | src/blackcell/bootstrap/review_runtime.py:443-456 | a submission that had read the whole stream and reports success has stored its own event, and the stream folds to the state that event leads to |
| `ReviewDecisions.ClaimExactly` | src/blackcell/bootstrap/review_runtime.py:84-111 | a claim is decided exactly for a well-formed worker and a future expiry, on a stored success of the run that the candidate describes and that another actor recorded, with no review yet or a requeued one of the very same execution; otherwise the error is named |
| `ReviewDecisions.ClaimGrants` | src/blackcell/bootstrap/review_runtime.py:112-152 | the lease and the event of a decided claim: its attempt and token count the claims, and its cause is the execution event or the review's last event |
| `ReviewDecisions.RenewExactly` | src/blackcell/bootstrap/review_runtime.py:154-189 | exactly when a renewal is decided, the error otherwise, and the event it submits |
| `ReviewDecisions.DispatchExactly` | src/blackcell/bootstrap/review_runtime.py:191-234 | the same for a provider dispatch |
| `ReviewDecisions.SuccessExactly` | src/blackcell/bootstrap/review_runtime.py:236-283 | the same for a success |
| `ReviewDecisions.FailureExactly` | src/blackcell/bootstrap/review_runtime.py:285-317 | the same for a failure, which an expired lease does not prevent |
| `ReviewDecisions.ReconcileExactly` | src/blackcell/bootstrap/review_runtime.py:328-363 | what reconciliation does with one review: refuse one the caller itself works on, requeue a claimed one, mark a dispatched one, leave the rest |
| `ReviewProtocol.SubmissionIsSafe` | src/blackcell/bootstrap/review_runtime.py:443-456 | whatever the staleness of its read, a submission keeps every stream accepted, and it changes the ledger only after a read of the whole stream |
| `ReviewProtocol.SubmissionSucceedsExactly` | src/blackcell/bootstrap/review_runtime.py:443-456 | the exact condition under which a submission reports success |
| `ReviewProtocol.OwnEventStoredExactly` | src/blackcell/bootstrap/review_runtime.py:443-456 | after a reported success the caller's event is stored exactly when its key was free |
| `ReviewProtocol.TwinAlsoSucceeds` | src/blackcell/bootstrap/review_runtime.py:443-456 | a retry under a new event id succeeds and stores nothing, so the id it reports may not exist |
| `ReviewClients.StepKeepsOrder` | src/blackcell/bootstrap/review_runtime.py:319-364 | every read or append of any client, the two separate reads of reconciliation included, keeps every review stream accepted |
| `ReviewClients.ReachableStreamsAccepted` | src/blackcell/bootstrap/review_runtime.py:443-456 | in every reachable state every review stream is empty or accepted |
| `ReviewClients.ReachableDispatchOnce` | src/blackcell/bootstrap/review_runtime.py:191-234 | in every reachable state each review has at most one provider dispatch |
| `ReviewClients.CommitReadWholeStream` | src/blackcell/bootstrap/review_runtime.py:443-456 | a commit that changes the ledger had read the whole current stream |
| `ReviewClients.SupersededLeaseIsDead` | src/blackcell/bootstrap/review_runtime.py:366-396 | once a lease is superseded, no call that presents it passes the active-lease check in any later reachable state |
| `ReviewClients.StaleCommitAddsNothing` | src/blackcell/bootstrap/review_runtime.py:443-456 | a commit whose read has become stale adds nothing, now or later |
| `ReviewCorrelation.ReachKeepsGrounds` | src/blackcell/bootstrap/review_runtime.py:404-418 | in every reachable state every claim, stored or about to be submitted, names a stored success of its own run, with that event's digest and correlation, recorded by someone other than the claiming worker |
| `ReviewCorrelation.ReviewerIsNotExecutor` | src/blackcell/bootstrap/review_runtime.py:103-104 | in every reachable state the holder of a review's lease is not the actor of the execution event the lease names |
| `ReviewCorrelation.ReviewsCorrelated` | src/blackcell/bootstrap/review_runtime.py:112-120 | so every review stream carries the correlation of the execution event that its current lease names, though claiming never compares them, and is about a success of that very run |
| `ReviewCorrelation.ClaimProgresses` | src/blackcell/bootstrap/review_runtime.py:84-152 | every claim decided on in any reachable state leads to the claimed review it is for, under the next attempt and fencing token |
| `ReviewCorrelation.EveryDecisionIsAccepted` | src/blackcell/bootstrap/review_runtime.py:84-317 | whatever any worker call decides in any reachable state, the fold of the stream it read accepts |
| `ReviewService.ReviewRuntimeService.AppendReview` | src/blackcell/bootstrap/review_runtime.py:443-456 | over the shared event store, the submission of the model |
| `ReviewService.ReviewRuntimeService.Inspect` | src/blackcell/bootstrap/review_runtime.py:77-82 | nothing for an empty stream, else its state, or a conflict when the stream is not accepted |
| `ReviewService.ReviewRuntimeService.Claim` | src/blackcell/bootstrap/review_runtime.py:84-152 | decides from the execution event and the stream as stored, then submits |
| `ReviewService.ReviewRuntimeService.RenewLease` | src/blackcell/bootstrap/review_runtime.py:154-189 | submits the renewal and returns the lease with only its expiry changed |
| `ReviewService.ReviewRuntimeService.RecordProviderDispatch` | src/blackcell/bootstrap/review_runtime.py:191-234 | submits the dispatch under the active lease and returns its event id |
| `ReviewService.ReviewRuntimeService.RecordSuccess` | src/blackcell/bootstrap/review_runtime.py:236-283 | submits the success under the active, dispatched lease; the state it reads again and returns is the stream's own, succeeded, under that lease and with every artifact named |
| `ReviewService.ReviewRuntimeService.RecordFailure` | src/blackcell/bootstrap/review_runtime.py:285-317 | submits the failure under the active lease; the state it reads again and returns is the stream's own, failed, under that lease and with the code named |
| `ReviewService.ReviewRuntimeService.RequireState` | src/blackcell/bootstrap/review_runtime.py:398-402 | the state the stream folds to; not found for an empty stream, a conflict for one that is not accepted |
| `ReviewService.ReviewRuntimeService.ReviewRunIds` | src/blackcell/bootstrap/review_runtime.py:458-476 | the paging loop lists every claimed run once, in the order of first claims |
| `ReviewService.ReviewRuntimeService.ReconcileAll` | src/blackcell/bootstrap/review_runtime.py:319-364 | the loop over those runs leaves the ledger and the report of the specification, or fails where it fails |
| `ReviewOrder.RunsInOrder` | src/blackcell/bootstrap/review_runtime.py:458-476 | whoever is listed before another has its first claim before the other's first claim in the ledger |
| `ReviewOrder.ReportInOrder` | src/blackcell/bootstrap/review_runtime.py:319-364 | both lists of a reconciliation report keep that order |
| `ReconcileLaws.RunsListed` | src/blackcell/bootstrap/review_runtime.py:458-476 | the listing is duplicate-free and holds exactly the runs with a claim on their review stream |
| `ReconcileLaws.ReconcileCloses` | src/blackcell/bootstrap/review_runtime.py:319-364 | when reconciliation returns, no review is claimed or dispatched, others are unchanged, and the two lists are exactly the formerly claimed and formerly dispatched runs |
| `ReconcileLaws.ReconcileIsIdempotent` | src/blackcell/bootstrap/review_runtime.py:319-364 | a second call succeeds, appends nothing and reports nothing |
| `ReconcileReturns.ReachKeepsKeys` | src/blackcell/bootstrap/review_runtime.py:420-441 | in every reachable state a requeue or reconciliation key stands only on an event of that type about the lease the key names |
| `ReconcileReturns.HostKeyFree` | src/blackcell/bootstrap/review_runtime.py:340-356 | so the key under which an open review would be requeued or marked is free |
| `ReconcileReturns.ReconcileReturnsExactly` | src/blackcell/bootstrap/review_runtime.py:319-364 | on a quiet ledger reached by any interleaving, with new event ids, reconciliation returns exactly when its caller is the worker of no open review |
| `Projections.Replay` | src/blackcell/kernel/projections.py:224-271 | the loop accepts exactly the replayable inputs and returns the fold over the rows after the checkpoint; otherwise it names the first thing wrong: version, checkpoint, or the first event that does not fit |
| `Projections.Rebuild` | src/blackcell/kernel/projections.py:273-292 | rebuilding replays the rows the scope selects after the checkpoint |
| `ReplayMeaning.ReplayableExactly` | src/blackcell/kernel/projections.py:232-261 | replayable are recorded events in strictly increasing positions, under a checkpoint of the projection's name and version, with only its stream's events after its cursor |
| `ReplayMeaning.OutcomeExactly` | src/blackcell/kernel/projections.py:234-271 | the events up to the cursor are skipped and every later one applied, one at a time and in order; the count, position and sequence are those of the applied events |
| `ProjectionLaws.CheckpointAgrees` | src/blackcell/kernel/projections.py:224-291 | resuming from a checkpoint of an earlier replay gives the state, hash, position and next checkpoint of a replay from zero, and in stream scope its last sequence; the processed counts add up |
| `ProjectionLaws.GlobalSequenceAgreesExactly` | src/blackcell/kernel/projections.py:239-271 | in global scope the last stream sequence agrees exactly when events follow the checkpoint or there are none at all |
| `ProjectionLaws.GlobalSequenceIsLost` | src/blackcell/kernel/projections.py:239-271 | an input that loses it: one event, then nothing after the checkpoint |
| `Checkpoints.CheckpointStore.Save` | src/blackcell/kernel/projections.py:146-216 | replaces the row exactly when the scope is not reserved, the comparison holds, nothing regresses and a row at the same position is the same checkpoint; otherwise nothing changes and the failing check is named, divergence exactly when it comes to that check |
| `Checkpoints.CheckpointStore.Load` | src/blackcell/kernel/projections.py:124-144 | the one stored checkpoint of that name, version and scope; nothing exactly when the table holds none |
| `Checkpoints.SaveableExactly` | src/blackcell/kernel/projections.py:146-216 | what a save needs, in terms of the stored row of the same name, version and scope, and of there being none |
| `Checkpoints.GenuineNeverDiverges` | src/blackcell/kernel/projections.py:146-216 | checkpoints taken by replays of one growing ledger never trip the divergence check |
| `Checkpoints.SavesStayGenuine` | src/blackcell/kernel/projections.py:146-216 | after any saves of any projections on a growing ledger, every row of a projection comes from a replay of the ledger's past |
| `Checkpoints.GenuineSaveable` | src/blackcell/kernel/projections.py:146-216 | a genuine checkpoint saved after any such saves is refused exactly for a reserved scope, an expected position that is not the current one, or a position behind it; never as divergent |
| `Checkpoints.LoadedCheckpointAgrees` | src/blackcell/kernel/projections.py:224-291 | resuming from any stored genuine checkpoint agrees with replay from zero, and yields a genuine checkpoint again |
| `SectionCycles.SectionPass.Visit` | crates/tui/src/contract.rs:751-771 | finishes a node and everything below it, or finds a cycle; what is being visited is the current path, what is visited is closed and acyclic |
| `SectionCycles.ValidateSections` | crates/tui/src/contract.rs:409-434 | succeeds exactly when children are known and the child relation has no cycle, in whatever order the set is walked |
| `SectionCycles.ValidateComponents` | crates/tui/src/contract.rs:376-396 | succeeds exactly when every component is right by itself and no identifier or action identifier repeats; otherwise names the first fault met |
| `SectionCycles.Validate` | crates/tui/src/contract.rs:365-435 | accepts exactly the surfaces whose header, components, dispositions and sections are right, and names the check that fails |
| `OutputSchema.JsonEqualMeaning` | src/blackcell/gateway/schema.py:360-385 | equality is equality of canonical forms, for values without non-finite numbers |
| `OutputSchema.JsonEqualEquivalence` | src/blackcell/gateway/schema.py:360-385 | symmetric and transitive, and reflexive on exactly the values without non-finite numbers |
| `SchemaMeaning.SchemaPassMeaning` | src/blackcell/gateway/schema.py:88-197 | the schema pass accepts exactly the schemas whose every keyword, at every depth, is supported and has a value of its shape, with no empty range |
| `SchemaMeaning.TypesMeaning` | src/blackcell/gateway/schema.py:200-223 | a type declaration is refused exactly when it is neither a type name nor a non-empty list of distinct ones |
| `SchemaMeaning.MatchesExactly` | src/blackcell/gateway/schema.py:340-357 | what each of the seven type names means, by kind of value: an integer is a number and a boolean is neither |
| `SchemaMeaning.ValuePassMeaning` | src/blackcell/gateway/schema.py:226-337 | on a well-formed schema the value pass reaches no guard and passes exactly the values that satisfy every keyword |
| `SchemaMeaning.ValidateOutputMeaning` | src/blackcell/gateway/schema.py:75-85 | accepts exactly conforming values of well-formed schemas whose root allows an object; the guards are unreachable |
| `PlanOrder.BuildDependents` | src/blackcell/interfaces/http/contracts.py:694-701 | the inverse of the dependency relation, unless a dependency is unknown or an identifier repeats and so no order exists |
| `PlanOrder.Release` | src/blackcell/interfaces/http/contracts.py:707-711 | counting the dependents of a placed node down keeps the counts exact and the queue sorted and complete |
| `PlanOrder.PlanTopologicalOrder` | src/blackcell/interfaces/http/contracts.py:694-714 | returns a topological order in which each position holds the least node that may stand there, and raises exactly when an identifier repeats or no order exists |
| `Plans.GreedyIsLeast` | src/blackcell/interfaces/http/contracts.py:702-711 | such an order is the lexicographically least topological order |
| `Plans.AncestorEarlier` | src/blackcell/interfaces/http/contracts.py:694-714 | in a topological order every ancestor stands earlier |
| `PlanAdmission.BuildAncestors` | src/blackcell/interfaces/http/contracts.py:324-329 | the table built along the order holds each node's exact ancestors |
| `PlanAdmission.NeighboursSuffice` | src/blackcell/interfaces/http/contracts.py:330-332 | checking neighbouring writers is checking that of any two writers one depends on the other |
| `PlanAdmission.AdmitPlan` | src/blackcell/interfaces/http/contracts.py:303-332 | accepts exactly the plans with well-formed identifiers and base commit, distinct allowed effects, an allowed number of distinct known nodes within those effects, an order, and writers that form one chain |
| `PlanAdmission.ValidExactly` | src/blackcell/interfaces/http/contracts.py:262-332 | the same plans, field by field: identifiers, base commit, effects, number of nodes, and each node's dependencies and effects |
| `PlanAdmission.CollectAncestors` | src/blackcell/bootstrap/runtime_service.py:3257-3267 | the worklist terminates with exactly the transitive dependencies |
| `PlanAdmission.NodeBaseCommit` | src/blackcell/bootstrap/runtime_service.py:3247-3279 | the plan's base when no ancestor writes, else the head of the ancestor writer that depends on all the others; an error exactly when there is no such base |
| `PlanAdmission.LatestWriterUnique` | src/blackcell/bootstrap/runtime_service.py:3269-3277 | there is only one such ancestor writer |
| `PlanAdmission.BaseContainsAncestors` | src/blackcell/bootstrap/runtime_service.py:3247-3279 | when every head contains its own base, a node's base contains the plan's base and the head of every ancestor that writes |
| `Scheduling.FirstReady` | src/blackcell/bootstrap/runtime_service.py:623-632 | the first node of the order that is pending with every dependency succeeded, if there is any |
| `Scheduling.NextReadyNode` | src/blackcell/bootstrap/runtime_service.py:610-633 | of the first run that is queued or running, not canceled, leased, on the kernel or generated, and has a ready node, the ready node that stands first in the plan's order; nothing exactly when no such run has one |
| `Scheduling.NoDeadlock` | src/blackcell/bootstrap/runtime_service.py:625-632 | with every node pending or succeeded and one pending, some node is ready |
| `Scheduling.RunInvariant` | src/blackcell/orchestration/run_lifecycle.py:260-264 | over every run, nodes past pending have succeeded dependencies, and exactly the succeeded nodes have heads, each on the base its node has |
| `Scheduling.ReadyNodeHasBase` | src/blackcell/bootstrap/runtime_service.py:830-845 | in every reachable state a ready node has a base, and it contains the heads of all its ancestors that write |
| `RunWindow.LaterInvisible` | src/blackcell/kernel/store.py:322-343 | rows appended after a snapshot do not change what is read at or below its cursor |
| `RunWindow.PageDone` | src/blackcell/bootstrap/runtime_service.py:570-572 | lowering the bound to just below a page's oldest row leaves exactly the rows not yet paged, and none when that row is the first |
| `RunWindow.NextPage` | src/blackcell/bootstrap/runtime_service.py:550-572 | one turn of the paging loop advances the scan or exhausts it |
| `RunWindow.PresentationRunWindow` | src/blackcell/bootstrap/runtime_service.py:536-590 | exactly the newest runs of this runtime among the first thousand candidates at or below the cursor, ascending and within the limit; the number scanned, no more than needed; the flag, raised exactly when one more was found or the scan was cut off; an invalid limit is refused; later appends change nothing |
| `RunWindow.MatchingExactly` | src/blackcell/bootstrap/runtime_service.py:550-572 | the matching runs are exactly the queueing events of this runtime on run streams at or below the cursor, in the order of the ledger |
| `RunWindow.WindowIsNewestSuffix` | src/blackcell/bootstrap/runtime_service.py:536-590 | such a window is the newest part of all matching runs without a gap, and without the flag it is all of them |
| `RunWindow.OlderFlaggedForNothingExactly` | src/blackcell/bootstrap/runtime_service.py:573-590 | the flag is raised over nothing older exactly when the scan was cut off and all matching runs were within its reach and fit |
| `RunWindow.OlderFlaggedForNothing` | src/blackcell/bootstrap/runtime_service.py:573-590 | an input that raises it: a valid ledger with a thousand candidates of another source |
| `AttemptBudget.ElapsedMilliseconds` | src/blackcell/bootstrap/execution_plan.py:1011-1020 | refuses a clock that ran backwards, else rounds the elapsed time up by less than a millisecond |
| `AttemptBudget.RunCheck` | src/blackcell/bootstrap/execution_plan.py:412-441 | one check: the latency after it is what was spent and what it took, or the whole limit when the clock fails at its end; it goes through exactly when clock, latency, runner, cancellation, result and storage allow it, and otherwise ends as the first of them says |
| `AttemptBudget.RunChecks` | src/blackcell/bootstrap/execution_plan.py:393-480 | the loop with its early exits is the turn-by-turn specification, whether it goes through or stops: how it ends, the latency, the checks started with their timeouts, and whether all passed |
| `AttemptBudget.CallProvider` | src/blackcell/bootstrap/execution_plan.py:292-382 | how the call ends and what usage is taken over, in every case: none before the call, unknown amounts until it has answered and the next poll has passed, the answer's own afterwards |
| `AttemptBudget.Execute` | src/blackcell/bootstrap/execution_plan.py:203-580 | for every order, environment and pattern of cancellation, the attempt of the specification: its failure or success, its exact usage, its changed paths and its started checks |
| `AttemptLaws.SuccessExactly` | src/blackcell/bootstrap/execution_plan.py:203-580 | a success is reported exactly when the policy allows this action, none of the polls finds it canceled, every call answers, paths and provider usage fit their limits, and every check starts with latency left, ends within the limit, passes and is recorded |
| `AttemptFailures.ChecksFailedExactly` | src/blackcell/bootstrap/execution_plan.py:501-519 | failed checks are reported exactly when the change and every check go through, some check did not pass, the worktree is clean and the outcome is recorded |
| `AttemptFailures.UncleanExactly` | src/blackcell/bootstrap/execution_plan.py:482-500 | an unclean worktree is reported exactly when everything went through to it and it is retained and recorded |
| `AttemptFailures.FailureExactly` | src/blackcell/bootstrap/execution_plan.py:203-580 | every other failure (cancellation, exhausted budget, path limit, clock, runner, check result, failed call) is reported exactly when it is the first thing to go wrong, at one of the points named for it, and can be reported |
| `AttemptFailures.RaisedExactly` | src/blackcell/bootstrap/execution_plan.py:561-612 | an attempt ends without evidence exactly when it is denied or already canceled, a call ends with an input or output error, or a failure cannot be reported |
| `AttemptFailures.ChangedExactly` | src/blackcell/bootstrap/execution_plan.py:384-392 | evidence names the changed paths exactly when the commit is reached and answers |
| `AttemptFailures.StartedExactly` | src/blackcell/bootstrap/execution_plan.py:393-411 | which checks are started, what had been spent before each, and its timeout: the least of both limits and of the latency left |
| `AttemptLaws.SuccessWithinBudgets` | src/blackcell/bootstrap/execution_plan.py:203-580 | a reported success is charged its change and all its checks, within the remaining and the authority's latency, the intersected call budget as far as amounts are known, and both path limits, with every check passed |
| `AttemptLaws.ChecksStartInTime` | src/blackcell/bootstrap/execution_plan.py:393-411 | in every reported attempt each check starts with latency left and with a timeout within it and within both timeout limits |
| `AttemptLaws.OverrunIsExhaustion` | src/blackcell/bootstrap/execution_plan.py:412-436 | an attempt charged more latency than it may use is reported as exhausted |
| `AttemptLaws.ChargeCoversExactly` | src/blackcell/bootstrap/execution_plan.py:320-344 | the charge of reported evidence covers what its call and its started checks took exactly when the call, if made, answered and the next poll did not find it canceled, or took no time |
| `AttemptLaws.AccountedCharge` | src/blackcell/bootstrap/execution_plan.py:412-431 | an accounted attempt is charged exactly what it spent unless its clock failed, and then no less |
| `AttemptLaws.KnownUsageIsTheAnswers` | src/blackcell/bootstrap/execution_plan.py:318-344 | tokens and cost are the answer's, zero without a call, or else reported as unknown |
| `AttemptLaws.DroppedAnswerIsFree` | src/blackcell/bootstrap/execution_plan.py:340-344 | an input that is not charged: canceled while the provider answers, 900 ms spent and none charged |
| `AttemptLaws.ChargedIsElapsed` | src/blackcell/bootstrap/execution_plan.py:1011-1020 | the time the checks took is charged in full and overcharged by at most a millisecond a check |
| `AttemptRuns.UnaccountedIsLast` | src/blackcell/orchestration/execution_runtime.py:1282-1293 | a call that is not accounted is the last step of its run: usage is unknown after it, and neither a retry of a writing task nor planning starts then |
| `AttemptRuns.TotalsAreSpending` | src/blackcell/orchestration/execution_runtime.py:644-656 | before its last step, a run's total latency is exactly what its planning, calls and checks took |
| `AttemptRuns.TotalsCoverSpendingExactly` | src/blackcell/orchestration/execution_runtime.py:1346-1443 | the totals of a run cover all it spent exactly when its last step is accounted for or spent nothing |
| `AttemptRuns.SpendingGoesUncharged` | src/blackcell/orchestration/execution_runtime.py:1346-1443 | an input where they do not: a run of one attempt that spends 900 ms and adds none, recorded or not |
| `AttemptRuns.SuccessWithinRun` | src/blackcell/orchestration/execution_runtime.py:1530-1536 | whatever went before, a success leaves all that the run has really spent, and that is its total latency, within the budget; a success that wrote leaves its known tokens within theirs |
| `AttemptRuns.SpentRunNeverSucceeds` | src/blackcell/orchestration/execution_runtime.py:1530-1536 | once the latency budget is spent no later attempt with checks succeeds |
| `RunRules.TotalsExactly` | src/blackcell/orchestration/execution_runtime.py:644-656 | a run's totals are the sums of what its planning and its recorded evidence name, and complete exactly when every amount is known |
| `RunRules.NextStepExactly` | src/blackcell/orchestration/execution_runtime.py:1418-1440 | exactly which step may follow in a run: what its provider call needs to be known and left, and which ending of the step before it goes on to a task, a retry or planning, within the budget in all four amounts |
| `Artifacts.ArtifactStore.Put` | src/blackcell/kernel/artifacts.py:62-120 | over the blob directory and the table, the put of the model, wherever it is cut short |
| `Artifacts.ArtifactStore.WriteOnce` | src/blackcell/kernel/artifacts.py:191-208 | writes a blob once; a blob in place is only verified |
| `Artifacts.ArtifactStore.Get` | src/blackcell/kernel/artifacts.py:148-165 | in a valid store returns the content its digest addresses, or not found; integrity never fails |
| `Artifacts.PutKeepsValid` | src/blackcell/kernel/artifacts.py:62-120 | every put, cut short or not, keeps each row backed by a matching blob and the recorded bytes within the quota |
| `Artifacts.PutAccepted` | src/blackcell/kernel/artifacts.py:84-100 | a put succeeds exactly when its content is recorded already or fits the quota and nothing cuts it short |
| `Artifacts.PutExactly` | src/blackcell/kernel/artifacts.py:62-120 | how a put ends in a valid store: the reference or the error, in the order errors are found, and what it leaves on disk and in the table |
| `Artifacts.PutIsForever` | src/blackcell/kernel/artifacts.py:62-165 | after a successful put and any later ones, its digest reads back its content and putting it again returns the first reference unchanged |
| `Artifacts.DiskIsRecordedAndLeftover` | src/blackcell/kernel/artifacts.py:62-120 | after any puts, cut short or not, the disk holds the recorded bytes and those of the blobs no row records |
| `Artifacts.DiskWithinQuotaExactly` | src/blackcell/kernel/artifacts.py:89-98 | the disk stays within the quota exactly when the contents cut short after their blob and never put with success fit into what is not recorded yet |
| `Artifacts.NothingLeftOverExactly` | src/blackcell/kernel/artifacts.py:84-120 | the disk holds recorded bytes only, exactly when every non-empty content ever cut short after its blob was also put with success |
| `Artifacts.CutShortPutsEscapeQuota` | src/blackcell/kernel/artifacts.py:89-98 | an input where the disk exceeds the quota: two cut-short puts leave two bytes under a quota of one |
| `NodeOutcome.OutcomeRoundTrip` | src/blackcell/orchestration/execution_artifacts.py:231-328 | a manifest that may be constructed survives encoding and decoding |
| `NodeOutcome.OutcomeDecodeStrict` | src/blackcell/orchestration/execution_artifacts.py:255-328 | what the decoder accepts is a valid manifest's encoding and nothing else |
| `NodeOutcome.OutcomeSpelled` | src/blackcell/orchestration/execution_artifacts.py:231-252 | every field of an encoding, by name, the three statuses by their texts |
| `NodeOutcome.UnsupportedExactly` | src/blackcell/orchestration/execution_artifacts.py:274-279 | an object with a manifest's keys and another schema version is unsupported; whatever else is refused is invalid |
| `NodeOutcome.ConstructibleExactly` | src/blackcell/orchestration/execution_artifacts.py:147-223 | a manifest may be constructed exactly when its fields are valid, its artifacts are those of the stages up to some point, a code is given for a failure and nothing else, and a success has a head, passed checks, and every stage if it writes |
| `NodeOutcome.FieldsExactly` | src/blackcell/orchestration/execution_artifacts.py:57-177 | what each field, link and check of a manifest must be |
| `NodeOutcome.OutcomeDigestInjective` | src/blackcell/orchestration/execution_artifacts.py:226-228 | valid manifests with one digest are equal |
| `NodeOutcome.CheckStrict` | src/blackcell/orchestration/execution_artifacts.py:331-377 | a check decodes only from its own encoding, and only one that may be constructed |

## Left out

- SQLite itself: write-ahead logging, locking, file modes, synchronisation to disk. Transactions are atomic and the table constraints are kept.
- Error messages, and the paths in them.
- `_validate_transaction_connection`, and appends inside a caller's wider transaction: only the ledger's part of the transaction is modelled.
- The field checks of presentation surfaces: what they decide of a header, a component or a disposition is an input of `SectionCycles.Validate`. Everything else in the terminal client.
- Rejection of naive datetimes, and the non-blank checks on provider and profile names.
- The run lifecycle fold beyond node claims, preparation, success, requeue and stop, which is all `Scheduling` needs; its payloads and worktree evidence are not part of this model.
- `submit_run`, `query_runs` and the replay views: paging of the kind `RunWindow` and `ReviewRunIds` already show, over state that this model does not load.
- The projection of each selected run into a presentation item: `RunWindow` returns the events that queued the runs.
- Evidence collection, proposals, Git and sandbox calls: what they answer is an input of `AttemptBudget.Execute`.
- The evidence records and digests an attempt stores beside its manifest.
- `json.dumps`, canonical bytes and SHA-256: replaced by injective constructors.
- The time a checkpoint row was updated.
- ReviewService.ReviewRuntimeService.Claim: its read of the execution event and its read of the stream are one step, because the execution event, once stored, never changes.
- ReviewClients.StepKeepsOrder: a worker call's own two reads are one step for the same reason; reconciliation's two reads are separate.
- AttemptBudget.ElapsedMilliseconds: instants are reals, so the rounding of floating-point subtraction and the refusal of infinite products are not modelled.
- AttemptBudget.Execute: a call that answers with an error outside the caught kinds ends the attempt without evidence, whatever it was; the policy decision names its action directly in the place of a digest.
- AttemptRuns.TotalsAreSpending: which exceptions a failing call raises, and so whether its failure may be repaired, asks for a new plan or ends the run, is left open; every run the coordinator allows is among those considered.
- PlanOrder.PlanTopologicalOrder: it takes nodes as constructing them leaves them, with distinct dependencies, none of them the node itself.
- PlanAdmission.AdmitPlan: a node's paths, budget and checks, which constructing the node validates, are not modelled.
