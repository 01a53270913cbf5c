# neverless accounts — a Dafny model of the account core

The service keeps accounts that hold money. Each account holds two balances: `balance` and `lockedBalance`, the amount reserved for withdrawals still in flight. It also keeps an insertion-ordered ledger of withdrawals, each PENDING, PROCESSING, ERROR or SUCCESS.

Every change to an account runs as an operation on a per-shard FIFO queue. The shard is chosen from the account id, so one account's operations run one at a time. Withdrawals are forwarded to an external custodial service. A reconciliation pass polls that service and feeds finished withdrawals back to the account as status updates.

The model covers four pieces of the Java code.

- **`Account`** (`account.dfy`) models `AccountImpl`.
  - The balance snapshot is one `AccountBalance` value held in a field. The ledger (a `LinkedHashMap`) is a `seq<Withdrawal>` keyed by withdrawal id: `Put` replaces in place or appends.
  - Value-level functions (`Credited`, `Withdrawn`, `StatusUpdated`) describe each mutation. The class methods are proved to produce exactly those states.
  - A withdrawal's message is held as which of the two messages the code ever stores: none, or the insufficient-balance message for an amount. `Text` renders the exact string, and `TextIsInjective` shows that no information is lost.
- **`AccountProperties`** (`account_properties.dfy`) holds the lemmas about the account:
  - the locked-balance invariant;
  - the effect of one withdrawal;
  - greedy admission of consecutive withdrawals;
  - at-most-once settlement under repeated status updates.
- **`Repository`** (`repository.dfy`) models `AccountRepositoryImpl`: a create-once map from id to account object.
- **`OperationManager`** (`operation_manager.dfy`) models `InMemoryAccountOperationManager`.
  - It covers shard selection, one queue per shard, enqueueing, one worker step (`processTask`), account creation and lookups.
  - The closures the HTTP layer submits are modelled as the three commands it builds: `Credit`, `Withdraw`, `UpdateStatus`.
  - `SchedulerProperties` (`scheduler_properties.dfy`) proves per-account FIFO order across shards.
- **`ExternalWithdrawals`** (`external_withdrawals.dfy`) models `ExternalWithdrawalManager`: `withdraw` and one `checkWithdrawalStatus` pass.
  - The external service is an oracle: whether the request was accepted, and what the state query answers for each id (a state, or an exception).
  - A fired completion handler is returned as a `Completion` value.
  - `ReconciliationProperties` (`reconciliation_properties.dfy`) proves what a pass fires and removes. It also proves that repeated completions are absorbed by the account.
- **`Handoff`** (`handoff.dfy`) models the closure that `Accounts.createWithdrawal` submits. It records the withdrawal on the account, then forwards it to `ExternalWithdrawalManager.withdraw`. The completion handler it registers submits the reported status to the account's shard.

The supporting modules are:

- `Wrappers`: Option, Result, and Outcome for void calls that may throw.
- `Format`: `%d` and `UUID.toString` text.
- `Domain`: account ids and the exceptions.
- `Integration`: the external service's ids and states.

Amounts are Java `Long`s and are modelled as unbounded `int`. Java's truncating `%` in the shard index is written out as `JavaRemainder`.

Behaviour worth knowing, as modelled:

- **Admission is greedy, in submission order.** Each withdrawal is checked against the snapshot the previous one left. A large withdrawal that is rejected does not stop a later, smaller one from being admitted (`LaterSmallerWithdrawalIsAdmitted`). Admission is not "the longest prefix of requests that fits".
- **A failed state query aborts the whole pass.** When the query for one entry throws, the pass has already fired the handlers of the finished entries before it, but removes nothing. Those handlers fire again on the next pass (`AbortedPassKeepsFiredEntries`).
  - A withdrawal whose request the service refused is still registered on the queue. If the service does not know that id, its query throws on every pass.
  - The account side neutralises the repeats: a terminal status delivered again changes nothing (`TerminalUpdateIsIdempotent`, `SettlesAtMostOnce`, `RefiredCompletionIsAbsorbed`).
- **A withdrawal is forwarded even when the account rejected it.** The closure calls the external service after `withdraw` whatever status was recorded. A SUCCESS the service later reports for a withdrawal recorded as ERROR changes nothing, so such a payout is never debited (`RejectedWithdrawalIgnoresSettlement`). A refused request for an admitted withdrawal is undone by the ERROR update the handler submits to the same shard (`RefusedWithdrawalIsRolledBack`).
- **Entries behind a query that keeps throwing never complete.** A pass stops at the first query that throws, so the entries queued after it are not queried, and no handler fires for them (`EntriesBehindAThrowNeverFire`). The aborted pass leaves the queue unchanged, so this repeats on every pass while that query throws.
- **`getWithdrawalStatus` has its own NotFound message.** For an unknown account it reads `AccountId(<uuid>) is not found`, without the `Account ` prefix that `getAccount`, `validateAccountId` and `processTask` use.

## Model

| member | source | states |
|---|---|---|
| Format.NatDecimal | app/src/main/java/com/neverless/domain/impl/AccountImpl.java:69 | the `%d` text of a natural number is non-empty, all decimal digits, and has no leading zero |
| Format.NatDecimalRoundTrip | app/src/main/java/com/neverless/domain/impl/AccountImpl.java:69 | reading the digits of the `%d` text back yields the number |
| Format.Decimal | app/src/main/java/com/neverless/domain/impl/AccountImpl.java:69 | the `%d` text starts with '-' exactly for negative amounts |
| Format.DecimalRoundTrip | app/src/main/java/com/neverless/domain/impl/AccountImpl.java:69 | the amount in the insufficient-balance message reads back as the amount, negative values included |
| Format.HexDigits | app/src/main/java/com/neverless/domain/AccountId.java:17-19 | fixed-width lower-case hexadecimal text of the requested width |
| Format.UuidText | app/src/main/java/com/neverless/domain/AccountId.java:17-19 | `UUID.toString()` is 36 characters with dashes at positions 8, 13, 18 and 23 |
| Domain.AccountIdText | app/src/main/java/com/neverless/domain/AccountId.java:16-19 | `AccountId.toString()` is "AccountId(" + the UUID text + ")", 47 characters |
| Account.Text | app/src/main/java/com/neverless/domain/impl/AccountImpl.java:69 | the empty message renders as "" and only it does; the insufficient-balance message renders as the fixed sentence followed by the amount in `%d` |
| Account.TextIsInjective | app/src/main/java/com/neverless/domain/impl/AccountImpl.java:69 | two messages with the same text are the same message, so the amount can be read back from the text |
| Account.StatusOf | app/src/main/java/com/neverless/domain/impl/AccountImpl.java:138-144 | PROCESSING↔PROCESSING, COMPLETED↔SUCCESS, FAILED↔ERROR, each as an if-and-only-if; never PENDING |
| Account.IndexOf | app/src/main/java/com/neverless/domain/impl/AccountImpl.java:33 | a key of the ledger sits at one position, the first entry with that key |
| Account.Get | app/src/main/java/com/neverless/domain/impl/AccountImpl.java:95 | `withdrawals.get(id)` is non-null exactly when the id is a key, and then is the entry stored under that id |
| Account.FirstUnused | app/src/main/java/com/neverless/domain/impl/AccountImpl.java:82-89 | the id the retry loop settles on is one the generator produced and is not yet a key of the ledger |
| Account.StatusUpdated | app/src/main/java/com/neverless/domain/impl/AccountImpl.java:94-110 | fails exactly when the id is absent; never changes the ledger's length, keys or amounts; leaves entries with other ids untouched |
| Account.AccountImpl.constructor | app/src/main/java/com/neverless/domain/impl/AccountImpl.java:35-37 | a new account has balance 0, locked 0 and an empty ledger |
| Account.AccountImpl.WithInitialBalance | app/src/main/java/com/neverless/domain/impl/AccountImpl.java:39-43 | a new account has the initial balance, locked 0 and an empty ledger |
| Account.AccountImpl.AddToBalance | app/src/main/java/com/neverless/domain/impl/AccountImpl.java:57-61 | the new state is the old one with the balance increased by the amount; locked and ledger unchanged |
| Account.AccountImpl.CreateWithdrawal | app/src/main/java/com/neverless/domain/impl/AccountImpl.java:80-91 | the loop returns the first generated id not in the ledger and appends a PENDING withdrawal with an empty message under it; snapshot unchanged |
| Account.AccountImpl.Withdraw | app/src/main/java/com/neverless/domain/impl/AccountImpl.java:64-77 | the new state is `Withdrawn` of the old one under the fresh id, and that id is returned |
| Account.AccountImpl.UpdateWithdrawalStatus | app/src/main/java/com/neverless/domain/impl/AccountImpl.java:94-110 | a null-dereference failure with the state unchanged exactly when the id is absent; otherwise the new state is `StatusUpdated` of the old one |
| AccountProperties.NewAccountConsistent | app/src/main/java/com/neverless/domain/impl/AccountImpl.java:35-43 | a fresh account satisfies the invariant exactly when its initial balance is not negative |
| AccountProperties.OpenSumReplace | app/src/main/java/com/neverless/domain/impl/AccountImpl.java:108-109 | replacing a ledger entry in place changes the open sum by the difference of the two entries' locked amounts |
| AccountProperties.OpenSumCovers | app/src/main/java/com/neverless/domain/impl/AccountImpl.java:99-107 | with non-negative amounts the open sum covers every open withdrawal's amount |
| AccountProperties.CreditKeepsConsistent | app/src/main/java/com/neverless/domain/impl/AccountImpl.java:57-61 | crediting a non-negative amount keeps the invariant: distinct ids, locked = sum of open amounts, 0 ≤ locked ≤ balance |
| AccountProperties.WithdrawKeepsConsistent | app/src/main/java/com/neverless/domain/impl/AccountImpl.java:64-91 | a withdrawal under a fresh id keeps the invariant |
| AccountProperties.StatusUpdateKeepsConsistent | app/src/main/java/com/neverless/domain/impl/AccountImpl.java:94-110 | a status update for a known id keeps the invariant |
| AccountProperties.OpenWithdrawalUpdated | app/src/main/java/com/neverless/domain/impl/AccountImpl.java:99-109 | an update of a PENDING or PROCESSING withdrawal rewrites its entry in place with the same id, address and amount, the new status and an empty message; SUCCESS debits and unlocks the amount, ERROR only unlocks it, PENDING and PROCESSING keep both balances |
| AccountProperties.WithdrawRecordsOneEntry | app/src/main/java/com/neverless/domain/impl/AccountImpl.java:64-91 | exactly one entry is appended under the new id, carrying address and amount; the earlier entries keep their order and contents; the entry is ERROR with the insufficient-balance message and no lock when `balance - locked < amount`, otherwise PENDING with "" and the amount locked; the balance never changes |
| AccountProperties.WithdrawnFirst | app/src/main/java/com/neverless/domain/impl/AccountImpl.java:64-77 | consecutive withdrawals append one entry each and leave every earlier ledger entry unchanged |
| AccountProperties.AdmissionLocksGreedily | app/src/main/java/com/neverless/domain/impl/AccountImpl.java:66-75 | after consecutive withdrawals the balance is unchanged and locked has grown by the greedily admitted amounts |
| AccountProperties.AdmissionIsGreedy | app/src/main/java/com/neverless/domain/impl/AccountImpl.java:66-75 | the k-th of consecutive withdrawals is PENDING exactly when it fits what the earlier admitted ones left spendable, and ERROR otherwise |
| AccountProperties.LaterSmallerWithdrawalIsAdmitted | app/src/main/java/com/neverless/domain/impl/AccountImpl.java:66-75 | with balance 10, a withdrawal of 100 becomes ERROR and a later one of 5 is still admitted, locking 5 |
| AccountProperties.IndexOfSameKeys | app/src/main/java/com/neverless/domain/impl/AccountImpl.java:109 | `put` on an existing key keeps every key at its position, so the withdrawal is found where it was |
| AccountProperties.StatusesApplied | app/src/main/java/com/neverless/domain/impl/AccountImpl.java:94-110 | any run of status updates keeps the ledger's length, keys and amounts, and finds the withdrawal at its old position |
| AccountProperties.TerminalWithdrawalIsFrozen | app/src/main/java/com/neverless/domain/impl/AccountImpl.java:95-98 | once ERROR or SUCCESS, a withdrawal and its account ignore every further status update |
| AccountProperties.TerminalUpdateIsIdempotent | app/src/main/java/com/neverless/domain/impl/AccountImpl.java:95-98 | delivering the same ERROR or SUCCESS twice has the effect of delivering it once |
| AccountProperties.SettlesAtMostOnce | app/src/main/java/com/neverless/domain/impl/AccountImpl.java:94-110 | for an open withdrawal, only the first ERROR or SUCCESS among any number of updates takes effect: balance drops by the amount once on SUCCESS, locked drops once on either, and the withdrawal keeps that status |
| Repository.PutIfAbsent | app/src/main/java/com/neverless/domain/impl/AccountRepositoryImpl.java:18 | an absent id gets the new value; a present id keeps its value; other ids are untouched |
| Repository.FirstSave | app/src/main/java/com/neverless/domain/impl/AccountRepositoryImpl.java:17-24 | the position of the earliest save of an id |
| Repository.FirstSaveWins | app/src/main/java/com/neverless/domain/impl/AccountRepositoryImpl.java:14-29 | over any run of saves the store never shrinks and holds exactly the old ids plus the saved ones; an id keeps its account, or else holds the account of its first save |
| Repository.AccountRepository.constructor | app/src/main/java/com/neverless/domain/impl/AccountRepositoryImpl.java:14 | the store starts empty |
| Repository.AccountRepository.Save | app/src/main/java/com/neverless/domain/impl/AccountRepositoryImpl.java:16-24 | stores under the account's own id when absent and returns the account; otherwise fails with Duplicate "Account with id AccountId(<uuid>) already exists" and keeps the stored account |
| Repository.AccountRepository.Find | app/src/main/java/com/neverless/domain/impl/AccountRepositoryImpl.java:26-29 | present exactly for stored ids, returning the account stored under that id |
| OperationManager.Abs | app/src/main/java/com/neverless/processing/InMemoryAccountOperationManager.java:48 | `Math.abs` yields the value or its negation, never negative |
| OperationManager.JavaRemainder | app/src/main/java/com/neverless/processing/InMemoryAccountOperationManager.java:48 | Java's `%`: the remainder has the dividend's sign and magnitude `|a| mod b` |
| OperationManager.ShardIndex | app/src/main/java/com/neverless/processing/InMemoryAccountOperationManager.java:48 | `Math.abs(hash % concurrency)` lies in [0, concurrency) and equals `|hash| mod concurrency` |
| OperationManager.Execute | app/src/main/java/com/neverless/resources/Accounts.java:53-93 | a command fails (null dereference) exactly when it updates the status of an unknown withdrawal; a withdrawal reports a fresh generated id; each command yields the `Credited`, `Withdrawn` or `StatusUpdated` state |
| OperationManager.Apply | app/src/main/java/com/neverless/processing/InMemoryAccountOperationManager.java:116-129 | an unknown account fails with NotFound "Account <id> is not found"; a failure changes no account; only the operation's own account can change; on success that account holds the command's result; for a stored account the step is applied exactly when the command succeeds, and a failure carries the command's own exception |
| OperationManager.RunCommand | app/src/main/java/com/neverless/processing/InMemoryAccountOperationManager.java:125 | running a command on the account object in place has the effect `Execute` describes; a failing command leaves the account unchanged |
| OperationManager.Responses | app/src/main/java/com/neverless/processing/InMemoryAccountOperationManager.java:73 | one response per ledger entry, in ledger order, copying id, status and amount, and giving the text of its message |
| OperationManager.Enqueued | app/src/main/java/com/neverless/processing/InMemoryAccountOperationManager.java:48 | the operation is added at the tail of its shard queue and every other queue is unchanged |
| OperationManager.InMemoryAccountOperationManager.ShardOf | app/src/main/java/com/neverless/processing/InMemoryAccountOperationManager.java:48 | the shard of an account id is a valid queue index |
| OperationManager.InMemoryAccountOperationManager.constructor | app/src/main/java/com/neverless/processing/InMemoryAccountOperationManager.java:29-41 | exactly one empty queue for each shard index 0 .. concurrency−1 |
| OperationManager.InMemoryAccountOperationManager.DoAccountOperationAsync | app/src/main/java/com/neverless/processing/InMemoryAccountOperationManager.java:44-49 | the operation is appended to the tail of its account's shard queue and no other queue changes |
| OperationManager.InMemoryAccountOperationManager.ProcessTask | app/src/main/java/com/neverless/processing/InMemoryAccountOperationManager.java:116-129 | an empty queue changes nothing; otherwise exactly the head is removed, the rest of that queue and the other queues are untouched, and the accounts and the outcome are those of `Apply` |
| OperationManager.InMemoryAccountOperationManager.CreateAccount | app/src/main/java/com/neverless/processing/InMemoryAccountOperationManager.java:62-66 | an existing id fails with Duplicate and changes nothing; otherwise a fresh account with balance 0, locked 0 and an empty ledger is stored and returned |
| OperationManager.InMemoryAccountOperationManager.GetAccount | app/src/main/java/com/neverless/processing/InMemoryAccountOperationManager.java:57-60 | returns the stored account exactly for known ids, failing with NotFound "Account <id> is not found" otherwise |
| OperationManager.InMemoryAccountOperationManager.ValidateAccountId | app/src/main/java/com/neverless/processing/InMemoryAccountOperationManager.java:51-55 | passes exactly for known ids, failing with NotFound "Account <id> is not found" otherwise |
| OperationManager.InMemoryAccountOperationManager.GetWithdrawalStatus | app/src/main/java/com/neverless/processing/InMemoryAccountOperationManager.java:68-74 | the responses for the account's ledger, in order, for known ids; NotFound "<id> is not found" otherwise |
| SchedulerProperties.SubmittedAll | app/src/main/java/com/neverless/processing/InMemoryAccountOperationManager.java:44-49 | a run of submissions keeps the number of queues |
| SchedulerProperties.SubmissionsAppendPerShard | app/src/main/java/com/neverless/processing/InMemoryAccountOperationManager.java:44-49 | each queue receives exactly the submitted operations addressed to it, appended in submission order |
| SchedulerProperties.ForAccountAppend | app/src/main/java/com/neverless/processing/InMemoryAccountOperationManager.java:46-47 | the operations on one account in a concatenation are those of each part, in order |
| SchedulerProperties.ShardHoldsAllOfItsAccounts | app/src/main/java/com/neverless/processing/InMemoryAccountOperationManager.java:46-48 | an account's shard receives every operation on that account, in order |
| SchedulerProperties.SubmissionOrderIsKept | app/src/main/java/com/neverless/processing/InMemoryAccountOperationManager.java:44-49 | after any run of submissions, one account's operations sit in its shard queue after those already queued, in submission order |
| SchedulerProperties.OtherShardsStayAway | app/src/main/java/com/neverless/processing/InMemoryAccountOperationManager.java:46-48 | no operation on an account reaches a shard other than its own |
| ExternalWithdrawals.FirstThrow | app/src/main/java/com/neverless/processing/ExternalWithdrawalManager.java:72-86 | the position where the pass aborts: every earlier query answered, the query there threw; it equals the queue length exactly when no query throws |
| ExternalWithdrawals.Requests | app/src/main/java/com/neverless/processing/ExternalWithdrawalManager.java:75 | the requests that the fired completions concern, one for each, in order |
| ExternalWithdrawals.ExternalWithdrawalManager.constructor | app/src/main/java/com/neverless/processing/ExternalWithdrawalManager.java:19-25 | the outstanding queue starts empty |
| ExternalWithdrawals.ExternalWithdrawalManager.Withdraw | app/src/main/java/com/neverless/processing/ExternalWithdrawalManager.java:32-40 | a refused request fires its handler exactly once, with ERROR; an accepted one fires nothing; either way the request joins the tail of the queue |
| ExternalWithdrawals.ExternalWithdrawalManager.CheckWithdrawalStatus | app/src/main/java/com/neverless/processing/ExternalWithdrawalManager.java:70-87 | fires, in queue order, the mapped status of each non-PROCESSING entry before the first failing query; removes the fired entries when no query fails, and otherwise leaves the queue unchanged |
| ReconciliationProperties.FiredCompletionsAreTerminal | app/src/main/java/com/neverless/processing/ExternalWithdrawalManager.java:72-81 | every fired completion concerns a queued entry whose state is not PROCESSING, and carries ERROR or SUCCESS mapped from that state; the poller never delivers PROCESSING |
| ReconciliationProperties.KeptEntriesAreProcessing | app/src/main/java/com/neverless/processing/ExternalWithdrawalManager.java:74-82 | every entry a pass keeps is queued and was reported PROCESSING |
| ReconciliationProperties.RequestsAppend | app/src/main/java/com/neverless/processing/ExternalWithdrawalManager.java:72-81 | the requests of concatenated completions are the concatenated requests |
| ReconciliationProperties.CompletedPassPartitionsQueue | app/src/main/java/com/neverless/processing/ExternalWithdrawalManager.java:72-82 | in a pass without failing queries, the fired entries and the kept entries are together exactly the queue, each entry once (as multisets) |
| ReconciliationProperties.PartitionStep | app/src/main/java/com/neverless/processing/ExternalWithdrawalManager.java:72-82 | an answered entry is either fired for or kept, never both |
| ReconciliationProperties.CompletedPassNeverGrows | app/src/main/java/com/neverless/processing/ExternalWithdrawalManager.java:72-82 | fired plus kept count the queue's length, so a pass never grows the queue |
| ReconciliationProperties.AbortedPassKeepsFiredEntries | app/src/main/java/com/neverless/processing/ExternalWithdrawalManager.java:70-86 | when a query throws, every completion already fired concerns an entry still queued, so it fires again on a later pass |
| ReconciliationProperties.EntriesBehindAThrowNeverFire | app/src/main/java/com/neverless/processing/ExternalWithdrawalManager.java:72-86 | when a query throws, no completion is fired for an entry that does not occur before the throwing one |
| Handoff.WithdrawAndForward | app/src/main/java/com/neverless/resources/Accounts.java:62-75 | the closure records the withdrawal as `Withdrawn` under the first unused id; the request with that id, the address and the amount always joins the outstanding queue; a refused request adds exactly an ERROR update for that withdrawal to the account's own shard, and an accepted one changes no shard queue |
| Handoff.RejectedWithdrawalIgnoresSettlement | app/src/main/java/com/neverless/resources/Accounts.java:65-73 | for a withdrawal recorded as ERROR for insufficient balance, any status the service later reports, SUCCESS included, leaves the account unchanged |
| Handoff.RefusedWithdrawalIsRolledBack | app/src/main/java/com/neverless/resources/Accounts.java:65-73 | an admitted withdrawal followed by the ERROR update for a refused request leaves both balances as before, with the entry kept as ERROR and no message |
| ReconciliationProperties.RefiredCompletionIsAbsorbed | app/src/main/java/com/neverless/domain/impl/AccountImpl.java:95-98 | a completion fired twice reaches the account as the same terminal status twice, with the effect of delivering it once |

## Left out

- Threads and worker loops are not modelled: virtual threads, the `running` flags, the busy-poll `run()` loops, and `shutdown()` with its logging. The model runs single steps (`ProcessTask`, `CheckWithdrawalStatus`) and says nothing about interleavings.
- Tear-free reads through the `AtomicReference` are not modelled. The snapshot is one field assigned in a single step, and the ignored `compareAndSet` results are assumed to succeed, as the code's own comment states.
- The HTTP layer (`Accounts`, `Resources`, `Healthcheck`, DTOs, JSON) is not part of this model. Its closures appear as the `Command` values, with the withdrawal closure also modelled whole by `Handoff.WithdrawAndForward`. Its error handler, which only logs, appears as the `Failed` outcome.
- OperationManager.Execute: the `Withdraw` command covers only `account.withdraw`. The forwarding to `ExternalWithdrawalManager.withdraw` that the same closure performs is modelled separately by `Handoff.WithdrawAndForward`, not inside `ProcessTask`. So `ProcessTask`'s "no other queue changes" describes the scheduler step alone: the real step also adds the request to the outstanding queue, and after a refusal it also submits an ERROR update to the account's shard. The late settlement of an already rejected withdrawal is covered by `Handoff.RejectedWithdrawalIgnoresSettlement`.
- The external service's internals and timing are not modelled. Its answers are parameters: `requestAccepted`, and a function from withdrawal id to `StateQuery`.
- `checkWithdrawalStatus`'s `removeAll(finished)` is modelled as keeping the entries answered PROCESSING. Each queued pair carries its own handler instance, so only the pairs that fired are equal to members of `finished`. Entries added by other threads during a pass are not modelled.
- `AccountId.hashCode` is not modelled; the manager takes it as a constructor parameter `hash`.
- The logger is left out.
- Account.AccountImpl.CreateWithdrawal: the UUID generator is given as the finite list of ids it yields, which must contain one not yet in the ledger. The source retries forever.
- Account.AccountImpl.Withdraw: the same finite-generator precondition as `CreateWithdrawal`.
- OperationManager.InMemoryAccountOperationManager.ProcessTask: for a `Withdraw` command on a stored account, the same precondition applies, through `CanRun`.
- OperationManager.InMemoryAccountOperationManager.constructor: requires `concurrency > 0`. With `concurrency == 0`, every submission throws `ArithmeticException` from `% 0`. With a negative `concurrency`, no queues are built, `queues.get` returns null, and every submission throws `NullPointerException`.
- AccountProperties.CreditKeepsConsistent: assumes non-negative amounts, because the source never validates them.
- AccountProperties.WithdrawKeepsConsistent: the same non-negative-amount assumption.
- AccountProperties.StatusUpdateKeepsConsistent: the invariant includes non-negative amounts, which the source does not check.
- Java `Long` overflow of balances and amounts is not modelled; amounts are unbounded integers.
- Repository.AccountRepository.Find: requires the store's invariant (every account stored under its own id). The source's `find` has no precondition, but `save` is the only writer and keeps that invariant.
- Format.UuidText: proves only the shape of the text (length and dash positions), not that distinct UUIDs give distinct texts.
- The `accountBalance()`, `withdrawals()` and `id()` getters are read directly as the `snapshot`, `withdrawals` and `accountId` fields.
