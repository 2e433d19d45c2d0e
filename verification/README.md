# The concurrent bank server of SOPE, verified

`PROJ2/src` is a bank server. Its main thread reads requests from a FIFO and puts them into a
bounded circular queue guarded by two counting semaphores and a mutex. A number of bank offices
(threads) take requests from the queue, check the login under the mutex of the sender's account,
run the operation under the mutexes of the one or two accounts it is about, and reply. A shutdown
request closes the server's own end of the FIFO; when the input has ended, the main thread waits
for an empty queue, scans the offices' activity flags until none is raised, and cancels them.

This project models that server and proves, for any number of offices and accounts, any buffer
size, any requests and any interleaving, that

- every run is linearizable: ledger and replies are those of a bank that runs one whole request
  at a time, in an order that respects real time (`Guarantees.Linearizable`,
  `Guarantees.RealTimeOrder`);
- each account holds what the accepted openings and transfers come to, replies report just that, and
  an opened account lets in its own password (`Guarantees.AccountsExact`, `Guarantees.ReportsExact`,
  `Guarantees.OpenedAccountLogsIn`);
- offices are cancelled only when everything that ever arrived has been answered
  (`Guarantees.DrainedBeforeCancel`), and only after an accepted shutdown of the administrator or a
  message of length 0, which clients never build (`RequestWire.AllFramesExactly` and
  `RequestWire.RequestsRoundTrip`);
- there is no deadlock, the offices' work is bounded, any requests can be served, and after an
  accepted shutdown every strongly fair schedule comes to the end with everything answered
  (`Guarantees.FairStopAnswersAll`);
- in every reachable state, whatever the requests, the money in memory, the debits not yet credited
  and what wrapped credits destroyed add up to the money that was opened (`Guarantees.MoneyExact`);
  over a whole run balances stay in 0..MAX_BALANCE exactly when the server accepts no opening above
  MAX_BALANCE (`Guarantees.BalancesBoundedExactly`), and then nothing is lost and no 32-bit operation
  wraps; what the server refuses, or has not yet taken up, does not matter;
- no office pops an empty queue or follows a NULL account, the queue never grows, each request is
  delivered exactly once and in order, and account entries are touched only under their mutex;
- requests and replies survive their byte encoding, and the read loop takes a stream apart into
  exactly the messages that were written.

`dafny verify dfyconfig.toml` checks the whole project.

## How the code is modelled

- `RequestQueue.dfy`: `RequestQueues.RequestQueue` is the queue of `queue.c` as an object updated in
  place; `Rings` is the same queue as a value, which specifies the object and is the queue of the
  machine below.
- `AccountTable.dfy`: the account table of `accounts.c` and the handlers of `bankoffice.c` as
  sequential code on arrays.
- `AtomicBank.dfy`: `Exec`, the whole effect and reply of one request, with what it keeps. The
  handlers are proved to compute it, and the interleaved machine to refine it.
- `OfficeMachine.dfy`: the threads as a machine of small steps. Each wait and post, lock and
  unlock, push, pop, flag access, debit, credit and reply is a step, and so is each of the two writes
  of a new account; reads of account entries are grouped with the test or reply they serve, under the
  held mutexes; the flag scans take one step per index. The input may end with the descriptor's
  closing or, at any time, with a message of length 0. `ValidateStep`, `CreateStep`, `BalanceStep`, `TransferStep` follow
  PROJ2/src/bankoffice.c:54-184 and 196-243 with PROJ2/src/accounts.c:10-57; `LoopStep` follows
  PROJ2/src/bankoffice.c:245-256 and 349-372; `ShutdownStep` follows PROJ2/src/bankoffice.c:26-32
  and 186-194; `MainApply` follows PROJ2/src/server.c:71-92 and PROJ2/src/bankoffice.c:34-42 and
  327-346. Memory is sequentially consistent. A pop from an empty queue and a dereferenced NULL
  account lead to `Fault`.
- `Histories.dfy`: what an observer notes: requests pushed and popped, the moment each takes effect,
  replies. No step reads it. `Reachable` (in `Guarantees.dfy`) means: at the end of some run.
- `QueueProtocol.dfy`, `AccountLocks.dfy`, `HandlerKnowledge.dfy`, `CoreInvariant.dfy`,
  `Delivery.dfy`, `Refinement.dfy`, `Linearizability.dfy`, `Drain.dfy`, `Shutdown.dfy`,
  `Progress.dfy`, `Money.dfy`: the invariants, each with the lemma that every step keeps it.
- `Statements.dfy`: what each account must hold, read off the accepted requests alone.
- `Intake.dfy`: from what arrives to what is pushed, and that any requests can be served.
- `Fairness.dfy`: unending executions under strong fairness of every thread.
- `Guarantees.dfy`: the results for reachable states.
- `Wire.dfy`, `Client.dfy`: message encoding, the server's read loop, the client's checks.

Where the code and its own documentation disagree, the model follows the code:

- PROJ2/src/types.h:18 asks for the first applicable return code of the list, and types.h:28 for
  NO_FUNDS below MIN_BALANCE. An unknown sender gets ID_NOT_FOUND, not LOGIN_FAIL
  (`AtomicBank.UnknownSenderExample`), a transfer may empty the account
  (`AtomicBank.EmptiedAccountExample`), and a credit that wraps passes the TOO_HIGH test
  (`AtomicBank.WrappedCreditExample`). `AtomicBank.DocumentedCodeExact` states that these three are
  exactly the cases in which the documented code is not given.
- The client accepts account id 4096, which is no index of the server's table, and its test for a
  negative delay never fires (`Client.OutsideTableExample`, `Client.NegativeDelayExample`).
  `Client.AcceptedNumbers` states exactly when ids and delay are sound.
  The machine takes ids within the table as given.
- The server does not check opening balances (the client does). `AtomicBank.ConservationExact` and
  `Guarantees.MoneyExact` state exactly what is lost without that check, and
  `AtomicBank.WrappedCreditExample` shows such a loss on a ledger that the server can come to hold.
  `AtomicBank.BoundedExactly` and `Guarantees.BalancesBoundedExactly` state exactly when MAX_BALANCE is
  kept all the same.

## Model

| member | source | states |
|---|---|---|
| `RequestQueues.RequestQueue.constructor` | PROJ2/src/queue.c:3-10 | a new queue of any capacity has size 0, front 0 and rear one before it; it is a usable, empty queue exactly when the capacity is not 0 |
| `RequestQueues.RequestQueue.Full` | PROJ2/src/queue.c:18-20 | true exactly when as many items are queued as there is capacity |
| `RequestQueues.RequestQueue.Empty` | PROJ2/src/queue.c:22-24 | true exactly when nothing is queued |
| `RequestQueues.RequestQueue.Front` | PROJ2/src/queue.c:56-58 | gives the oldest item |
| `RequestQueues.RequestQueue.Push` | PROJ2/src/queue.c:26-36 | appends for every layout; in place when there is room, else into a fresh array of twice the capacity; the recursion through resize ends |
| `RequestQueues.RequestQueue.Resize` | PROJ2/src/queue.c:38-45 | doubles the capacity and keeps contents and order of every wrapped layout, laid out from index 0 |
| `RequestQueues.RequestQueue.Pop` | PROJ2/src/queue.c:47-54 | removes and gives the oldest item of a non-empty queue |
| `Rings.RearIsModular` | PROJ2/src/queue.c:3-10 | rear == (front + size - 1) mod capacity for every valid queue |
| `Rings.EnqueueAppends` | PROJ2/src/queue.c:30-35 | the write at the wrapped rear index appends to the contents |
| `Rings.DequeueRemovesHead` | PROJ2/src/queue.c:47-54 | the advance of front removes the head of the contents |
| `Rings.GrowKeepsContents` | PROJ2/src/queue.c:38-45 | the copy into twice the capacity has the same contents |
| `Rings.PushAppends` | PROJ2/src/queue.c:26-36 | push appends, and doubles the capacity exactly when the queue was full |
| `QueueHistories.RefinesSequence` | PROJ2/src/queue.c:18-54 | over any history of pushes and pops, with wrap-around and growth, the ring behaves as a sequence |
| `AtomicBank.ExecExtends` | PROJ2/src/bankoffice.c:109-184 | a request keeps every existing account's id, salt and hash, and an error reply means nothing changed |
| `AtomicBank.TransferExactly` | PROJ2/src/bankoffice.c:136-184 | an accepted transfer takes the amount from the sender and adds it to the receiver modulo 2^32, touches no other account and reports the sender's new balance; a refused one changes nothing and reports the balance there is |
| `AtomicBank.OpeningExactly` | PROJ2/src/bankoffice.c:109-134 | an accepted opening is the administrator's, gives the new account the balance asked for and the passwords that hash like the new one, and touches no other account |
| `AtomicBank.QueryExactly` | PROJ2/src/bankoffice.c:196-203 | a balance query changes nothing and reports the balance |
| `AtomicBank.ShutdownExactly` | PROJ2/src/bankoffice.c:186-194 | a shutdown is accepted exactly from the logged-in administrator, changes no account and reports the count of active offices |
| `AtomicBank.ConservationExact` | PROJ2/src/bankoffice.c:166-179 | money is conserved exactly unless a credit wraps at 32 bits, which destroys 2^32 |
| `AtomicBank.BoundedExactly` | PROJ2/src/bankoffice.c:109-184 | from balances at most MAX_BALANCE a request loses nothing, and leaves all balances at most MAX_BALANCE exactly unless it is a logged-in administrator's opening of a free account above it |
| `AtomicBank.RefusedOpeningExample` | PROJ2/src/bankoffice.c:205-219 | an oversize opening by an unknown sender is refused and changes nothing |
| `AtomicBank.DocumentedCodeExact` | PROJ2/src/types.h:18-32 | on every well-formed ledger the reply has the first applicable code of the list exactly when the sender exists, the transfer does not empty its account and the credit does not wrap |
| `AtomicBank.CodeOtherwise` | PROJ2/src/bankoffice.c:86-184 | the code that is given in each of the other three cases |
| `AtomicBank.UnknownSenderExample` | PROJ2/src/bankoffice.c:86-107 | an account that was never opened gets ID_NOT_FOUND where the list asks for LOGIN_FAIL |
| `AtomicBank.EmptiedAccountExample` | PROJ2/src/bankoffice.c:166-171 | sending away the whole balance gets OK where the list asks for NO_FUNDS |
| `AtomicBank.WrappedCreditExample` | PROJ2/src/bankoffice.c:172-179 | after two openings of 2^32 - 1 that the server accepts, a transfer of 1 gets OK where the list asks for TOO_HIGH, and 2^32 disappears |
| `AccountTables.AccountTable.constructor` | PROJ2/src/server.c:32-39 | a table with only the administrator's account, of balance 0 |
| `AccountTables.AccountTable.ClearAccounts` | PROJ2/src/accounts.c:16-21 | no account is left |
| `AccountTables.AccountTable.CreateAccount` | PROJ2/src/accounts.c:40-57 | entry id becomes the new account with the hash of password and salt; no other entry changes |
| `AccountTables.AccountTable.ValidateAccount` | PROJ2/src/bankoffice.c:86-107 | passes exactly for an existing account with the right password hash; else ID_NOT_FOUND or LOGIN_FAIL |
| `AccountTables.AccountTable.HandleCreateAccountRequest` | PROJ2/src/bankoffice.c:109-134 | table and reply are those of the atomic bank |
| `AccountTables.AccountTable.HandleTransferRequest` | PROJ2/src/bankoffice.c:136-184 | table and reply are those of the atomic bank, with the debit and the credit done in place one after the other |
| `AccountTables.AccountTable.HandleBalanceRequest` | PROJ2/src/bankoffice.c:196-203 | the reply is that of the atomic bank and the table is unchanged |
| `AccountTables.AccountTable.ManageRequest` | PROJ2/src/bankoffice.c:205-243 | validation followed by the handler is one request of the atomic bank |
| `QueueProtocol.PopFindsItem` | PROJ2/src/bankoffice.c:354-360 | an office about to pop finds the queue not empty, as the semaphores balance |
| `QueueProtocol.PushFindsRoom` | PROJ2/src/bankoffice.c:334-338 | the producer about to push finds room |
| `QueueProtocol.SyncPreserved` | PROJ2/src/bankoffice.c:245-276 | every step keeps the balance of both semaphores, the exclusive queue mutex and the meaning of the activity flags |
| `AccountLocks.LockInvOfficeStep` | PROJ2/src/accounts.c:30-38 | every office step keeps: a mutex is held by an office exactly where its program counter says so |
| `AccountLocks.WritesOnlyHeld` | PROJ2/src/bankoffice.c:109-184 | a step writes only account entries whose mutex its office holds |
| `AccountLocks.ReadsOnlyHeld` | PROJ2/src/bankoffice.c:86-203 | a step depends only on account entries whose mutex its office holds |
| `AccountLocks.WaitersClimb` | PROJ2/src/bankoffice.c:54-72 | an office waiting for an account mutex holds only mutexes of smaller ids |
| `AccountLocks.SomeHolderSteps` | PROJ2/src/bankoffice.c:59-72 | following the holders up from a blocked office ends at an office that can step |
| `HandlerKnowledge.LoginStays` | PROJ2/src/bankoffice.c:209-219 | a passed login still passes whatever accounts are created and balances moved |
| `HandlerKnowledge.KnowledgeIsStable` | PROJ2/src/bankoffice.c:205-243 | what an office has checked under its mutexes is undisturbed by the others |
| `HandlerKnowledge.StepLearns` | PROJ2/src/bankoffice.c:136-203 | an office's step establishes what its next one relies on; no NULL account is dereferenced |
| `CoreInvariant.CoreStep` | PROJ2/src/bankoffice.c:205-372 | every step of every thread keeps buffer protocol, locks and knowledge, and never removes or overwrites an account |
| `Delivery.DeliveryStep` | PROJ2/src/bankoffice.c:327-372 | every step keeps first-in first-out order and one carrier for each popped request without reply |
| `Refinement.AccountStepRefines` | PROJ2/src/bankoffice.c:86-203 | a step on the accounts is one whole request of the atomic bank with its reply, or invisible |
| `Refinement.OtherStepsKeepAbstract` | PROJ2/src/bankoffice.c:245-372 | no other step changes the abstract ledger |
| `Refinement.ShutdownRefines` | PROJ2/src/bankoffice.c:186-194 | the shutdown handler is one request of the atomic bank, whatever count its scan comes to |
| `Linearizability.CommitInRealTime` | PROJ2/src/bankoffice.c:245-253 | a request takes effect after every request that was replied to before it was popped |
| `Linearizability.LinearStep` | PROJ2/src/bankoffice.c:205-372 | every step keeps: the recorded events replay on the atomic bank to the abstract ledger, and every decided reply is the one sent |
| `Drain.NobodyClaims` | PROJ2/src/bankoffice.c:34-42 | once the main thread saw the queue empty, no office is between its semaphore and its pop |
| `Drain.DrainStep` | PROJ2/src/bankoffice.c:26-42 | every step keeps: offices that the scan has passed at sum 0 stay at rest |
| `Drain.AllAnswered` | PROJ2/src/bankoffice.c:314-324 | at the first cancel all pushed requests are popped and replied to and no office handles one |
| `Drain.NextDrainStep` | PROJ2/src/bankoffice.c:34-42 | in every state after the input was closed some enabled step decreases a well-founded measure |
| `Drain.DrainCanFinish` | PROJ2/src/bankoffice.c:314-324 | from every state after the input was closed a run leads to the cancellation |
| `Progress.NoDeadlock` | PROJ2/src/bankoffice.c:54-84 | some office can step, or the main thread with the queue mutex can, or all rest and the main thread is not blocked |
| `Progress.OfficeStepWorks` | PROJ2/src/bankoffice.c:205-256 | every office step strictly decreases the work left |
| `Progress.MainStepWorks` | PROJ2/src/bankoffice.c:327-346 | a main-thread step adds the work of one request when it pushes, else none |
| `Progress.NoWorkMeansRest` | PROJ2/src/bankoffice.c:349-354 | no work is left exactly when all offices wait and nothing is on offer |
| `Progress.RunWorkBound` | PROJ2/src/bankoffice.c:245-256 | over any run, steps taken plus work left are covered by the work there was and the requests pushed |
| `ShutdownRequests.OwnCount` | PROJ2/src/bankoffice.c:26-32 | the scan's count is at most the flags read and includes the scanning office's own |
| `ShutdownRequests.ReportedCount` | PROJ2/src/bankoffice.c:26-32 | the count replied is at least the number of flags raised during the whole scan and at most the number raised at some moment of it |
| `ShutdownRequests.ShutdownStepKeeps` | PROJ2/src/bankoffice.c:186-194 | every step keeps counts in range and: whoever accepts a shutdown has closed the input, and it is closed by nothing else; it ends otherwise only with an empty message |
| `Money.ReplayConserves` | PROJ2/src/bankoffice.c:166-181 | over any run of the atomic bank that accepts only openings of at most MAX_BALANCE, no credit wraps, money is conserved and balances are bounded |
| `Money.ReplayBoundedExactly` | PROJ2/src/bankoffice.c:109-181 | balances are bounded after every prefix of a run of the atomic bank exactly when it accepts no opening above MAX_BALANCE |
| `Money.ReplayTotal` | PROJ2/src/bankoffice.c:166-181 | over any run of the atomic bank, exactly the wrapped credits lose money |
| `Money.TotalSplits` | PROJ2/src/bankoffice.c:178-179 | with balances of any size, the abstract total is the money in memory plus the debits still to be credited |
| `Money.ArithmeticIsExact` | PROJ2/src/bankoffice.c:166-179 | the TOO_HIGH sum, the debit and the credit do not wrap when balances are bounded |
| `Statements.StatementIsExact` | PROJ2/src/bankoffice.c:109-184 | after any run of the atomic bank each account holds the accepted openings and incoming transfers less the outgoing ones, modulo 2^32, and exactly that when no opening above MAX_BALANCE was accepted |
| `Statements.ReportIsStatement` | PROJ2/src/bankoffice.c:160-203 | a reported balance is the sender's statement at that point |
| `Intake.IntakeRun` | PROJ2/src/bankoffice.c:327-346 | over any run the main thread pushes exactly the requests that arrive, unchanged and in order, but for one still in its hand |
| `Guarantees.InitialExists` | PROJ2/src/bankoffice.c:258-312 | every configuration has an initial state, so the results are not vacuous |
| `Guarantees.Linearizable` | PROJ2/src/bankoffice.c:86-243 | every reachable state is explained by the atomic bank run in one real-time order; memory equals its ledger whenever no request is in progress |
| `Guarantees.RealTimeOrder` | PROJ2/src/bankoffice.c:349-372 | if a request has been replied to in some state of a run, it took effect before every request that is popped after that state |
| `Guarantees.DeliveredOnceInOrder` | PROJ2/src/bankoffice.c:327-372 | what arrived is pushed or in the main thread's hand; popped is a prefix of pushed, the rest is queued; each popped request is replied to or carried by exactly one office |
| `Guarantees.SemaphoresCount` | PROJ2/src/bankoffice.c:258-276 | both semaphore equations hold in every reachable state |
| `Guarantees.NoUndefinedStep` | PROJ2/src/queue.c:26-54 | no empty pop, no NULL account, no push to a full queue; the ring keeps its size and rear stays modular |
| `Guarantees.DrainedBeforeCancel` | PROJ2/src/bankoffice.c:314-324 | at the first cancel everything that ever arrived has been pushed and answered as the atomic bank would, and memory is its ledger |
| `Guarantees.EveryRequestServed` | PROJ2/src/bankoffice.c:327-372 | whatever requests arrive, some run reads exactly these, answers all of them and waits for the next |
| `Guarantees.LockDiscipline` | PROJ2/src/accounts.c:30-38 | at most one office holds a mutex, exactly between its lock and unlock, and none outside a handler |
| `Guarantees.ExclusiveAccess` | PROJ2/src/bankoffice.c:54-84 | in every reachable state a step reads and writes only entries whose mutex its office has locked |
| `Guarantees.EffectUnderLocks` | PROJ2/src/bankoffice.c:205-243 | a request takes effect once, between pop and reply, with the mutexes of its accounts held |
| `Guarantees.LoginsStayValid` | PROJ2/src/accounts.c:40-57 | every account is stored under its id; between any two states of a run accounts persist with id, salt and hash, and logins stay valid |
| `Guarantees.HandlersStayLoggedIn` | PROJ2/src/bankoffice.c:209-233 | an office in a handler acts for a login that is valid now, on an account that exists, with every account stored under its id |
| `Guarantees.DeadlockFree` | PROJ2/src/bankoffice.c:205-372 | in every reachable state some thread can step, or all offices wait without a mutex and the main thread waits for input or is done |
| `Guarantees.ShutdownCompletes` | PROJ2/src/bankoffice.c:314-324 | once a shutdown has been accepted or the input has ended, the cancellation of the offices stays reachable from every state, without reading anything more |
| `Guarantees.DrainTerminates` | PROJ2/src/bankoffice.c:34-42 | after the end of input the offices' steps are bounded by the work left, and while work is left some step is enabled |
| `Guarantees.DrainEnds` | PROJ2/src/bankoffice.c:34-42 | once no work is left, under every schedule only the main thread steps, at most 2 * offices + 5 times, and it can step until the cancellation |
| `Guarantees.FairDrainAnswersAll` | PROJ2/src/bankoffice.c:314-324 | every strongly fair execution of a drain comes to the cancellation, with exactly the requests that arrived before it answered as the atomic bank would |
| `Guarantees.FairStopAnswersAll` | PROJ2/src/bankoffice.c:186-194 | the same from any state after an accepted shutdown, as long as no more requests arrive |
| `Guarantees.FairScheduleExists` | PROJ2/src/bankoffice.c:34-42 | every such state has such a fair execution |
| `Guarantees.WholeRunBound` | PROJ2/src/bankoffice.c:245-256 | in a whole run the offices take at most a fixed number of steps for each request pushed |
| `Guarantees.MoneyExact` | PROJ2/src/bankoffice.c:166-181 | in every reachable state, for any openings: balances in memory, debits not yet credited and wrapped credits add up to the opening balances of the accounts created so far; money is conserved exactly when no credit has wrapped |
| `Guarantees.MoneyConserved` | PROJ2/src/bankoffice.c:178-179 | as long as no opening above MAX_BALANCE was accepted, balances in memory plus debits not yet credited equal the opening balances of the accounts created so far |
| `Guarantees.MoneyAtTheEnd` | PROJ2/src/bankoffice.c:172-179 | at the first cancel no debit is open, and money is missing from memory exactly by the wrapped credits |
| `Guarantees.BalancesBounded` | PROJ2/src/bankoffice.c:166-179 | as long as no opening above MAX_BALANCE was accepted, balances in memory are in 0..MAX_BALANCE and no 32-bit operation wraps |
| `Guarantees.BalancesBoundedExactly` | PROJ2/src/bankoffice.c:109-181 | over any run of the server, memory holds balances in 0..MAX_BALANCE in every state exactly when the run accepts no opening above MAX_BALANCE |
| `Guarantees.LedgersBoundedExactly` | PROJ2/src/bankoffice.c:109-181 | the ledgers of the atomic bank that explain a reachable state are all bounded exactly under the same condition |
| `Guarantees.CheckedOpeningsAreModest` | PROJ2/src/user.c:249-270 | clients that check every opening make sure of that condition |
| `Guarantees.AccountsExact` | PROJ2/src/bankoffice.c:109-184 | in every reachable state each account holds its statement modulo 2^32, in memory unless a debit of it is still to be credited; exactly its statement when no opening above MAX_BALANCE was accepted |
| `Guarantees.ReportsExact` | PROJ2/src/bankoffice.c:160-203 | every reply to a balance query or an accepted transfer reports the sender's statement at the moment the request took effect |
| `Guarantees.OpenedAccountLogsIn` | PROJ2/src/bankoffice.c:121-129 | in every state after an opening was accepted, exactly the passwords that hash like the requested one log in to the account |
| `Guarantees.ShutdownReplies` | PROJ2/src/bankoffice.c:186-194 | an accepted shutdown is the logged-in administrator's, has closed the input and reports between 1 and all offices |
| `Guarantees.StopsOnlyOnShutdown` | PROJ2/src/server.c:81-87 | a run comes to cancel the offices only after an accepted shutdown of the administrator, unless it read a message of length 0 |
| `Client.AcceptedExactly` | PROJ2/src/user.c:205-304 | a request is accepted exactly for the stated ranges of the numbers typed |
| `Client.AcceptedSaysWhatWasTyped` | PROJ2/src/user.c:205-304 | an accepted request has the operation, ids, amounts and passwords that were typed |
| `Client.AcceptedNumbers` | PROJ2/src/user.c:231-246 | openings are bounded; ids are table indices exactly unless one is 4096; the delay is the one typed exactly when not negative |
| `Client.OutsideTableExample` | PROJ2/src/user.c:231-246 | a request of account 4096 is accepted although the table has no such index |
| `Client.NegativeDelayExample` | PROJ2/src/user.c:231-246 | a delay of -1 is accepted and becomes 2^32 - 1 |
| `Client.AcceptedArrives` | PROJ2/src/user.c:205-229 | what the client accepts the server decodes unchanged |
| `Bytes.RoundTrip32` | PROJ2/src/types.h:72-116 | a 32-bit field survives its four bytes |
| `Bytes.StringOfCopy` | PROJ2/src/user.c:244 | a password survives the copy into a field with garbage behind it |
| `RequestWire.FrameRoundTrip` | PROJ2/src/types.h:72-116 | the server reads from a message the fields that the client put into it |
| `RequestWire.HeaderLayout` | PROJ2/src/types.h:72-116 | type numbers, lengths and the header fields of every message, at their offsets, lowest byte first |
| `RequestWire.ArgsLayout` | PROJ2/src/types.h:83-116 | the fields of an opening and of a transfer at their offsets |
| `RequestWire.ReadRequests` | PROJ2/src/server.c:71-92 | the loop pushes exactly the messages of the stream, in order |
| `RequestWire.FramesOfSerialized` | PROJ2/src/server.c:81-87 | for whole messages the loop yields exactly those before the first one of length 0 |
| `RequestWire.AllFramesExactly` | PROJ2/src/server.c:81-87 | it yields all of them exactly when none has length 0 |
| `RequestWire.RequestsRoundTrip` | PROJ2/src/user.c:161-178 | requests written whole one after the other come out as exactly that sequence |
| `ReplyWire.ReplyRoundTrip` | PROJ2/src/user.c:187-197 | the client reads the reply that was written; payload 0 for a header-only reply, whatever lies behind it |
| `ReplyWire.ReplyLayout` | PROJ2/src/types.h:124-174 | type, length, account, code and payload of a reply at their offsets, with codes numbered in their order |
| `ReplyWire.AnswersArrive` | PROJ2/src/replymaker.c:15-67 | every answer of the bank has a length that frames it, and the client reads exactly that answer |

## Left out

- RequestQueues.RequestQueue.Push: capacities are unbounded, so the overflow of an `int` capacity after repeated doubling is not modelled; cells that `malloc` leaves uninitialised have arbitrary contents; a queue created with capacity 0 cannot be pushed to here, as doubling it would never make room.
- RequestQueues.RequestQueue.Pop: a pop from an empty queue is excluded here; in the machine it is a fault that is proved unreachable.
- AccountTables.AccountTable.CreateAccount: hashing is a total function of password and salt and the salt is arbitrary; the silent return when hashing fails is not modelled.
- Guarantees.Linearizable: threads are values of a machine rather than objects, so that all interleavings can be quantified over; the number of active offices in a shutdown reply is racy and bounded by the flags raised during its scan (ReportedCount, ShutdownReplies).
- Guarantees.DrainTerminates: without fairness it bounds the offices' steps only, as the main thread may poll the queue and the flags any number of times meanwhile; FairStopAnswersAll and FairDrainAnswersAll assume that semaphores, mutexes and scheduler are strongly fair.
- A failing write in `sendReply`, on which the server exits at once with requests unanswered (PROJ2/src/bankoffice.c:381-384); every reply is sent here or its FIFO cannot be opened, and the office goes on.
- RequestWire.ReadRequests: reads are complete and do not fail; the loop is run alone on a queue, the semaphores around each push are in the machine; a length greater than the message buffer is not modelled.
- ReplyWire.ReadReply: reads into at most the reply's own buffer; the USR_DOWN rewrite in `sendReply` changes only what is logged.
- Client.CreateRequest: starts from parsed integers and words; `strtok`, `atoi` and passwords longer than their array are not modelled.
- Account ids within the table are an assumption of the machine on arriving requests, since the client lets 4096 through.
- Logging, display, FIFO creation, opening, naming after the client's process id and unlinking, file modes, real-time delays and the client's timeout alarm.
- `pthread_cancel`, `pthread_join` and everything after the first cancel, `destroyAccounts`, freeing of memory, command-line parsing and the clamping of the number of offices.
- A request arriving at an already closed descriptor after a second shutdown; input ends here once.
- PROJ1/src/forensic.c: a separate program that lists the properties of files by running external tools.
