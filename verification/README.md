# A verified model of the multithreaded WebSocket chat server

The repository is a chat server written from scratch in C++, with a React page that shows the
server's threads, locks and transactions live. This project models its behaviour in Dafny and proves
what the server, its thread pool, its lock manager, its connection pool, its database calls, its hash
and encoding routines and its framing do, on all inputs and over all interleavings.

Check it with `dafny verify dfyconfig.toml`.

## How it is organised

| file | what it holds |
|---|---|
| `Base64.dfy`, `Sha1.dfy` | the encoding and hash loops as methods, proved against section 4 of RFC 4648 and section 6.1 of FIPS 180-4 |
| `Sha1Vectors.dfy` | published digests, traced through the definition sixteen rounds at a time |
| `Handshake.dfy`, `Opening.dfy` | the accept key, and the opening request and its response as text |
| `Framing.dfy` | server frames, client frames and the `/rollback ` prefix, against sections 5.2 and 5.3 of RFC 6455 |
| `LockManager.dfy`, `ThreadPool.dfy`, `ConnectionPool.dfy` | the classes, with the code each call runs under its mutex |
| `LockMachine.dfy`, `LockTable.dfy`, `LockDeadlock.dfy`, `Unlocked.dfy`, `PoolMachine.dfy`, `ConnectionMachine.dfy` | all interleavings of threads over those classes: mutex ownership, check, sleep, wake and re-check are separate steps |
| `Database.dfy` | `executeTransaction` over an engine with one open transaction at a time |
| `WebSocketServer.dfy` | the client list, the sends, and one session from its handshake to its end, as methods |
| `ServerMachine.dfy` | all interleavings of sessions, broadcasts (one step per socket send) and database calls |
| `PooledServer.dfy` | the server's machine run on the pool's |
| `Broadcasts.dfy`, `Delivery.dfy`, `Sessions.dfy`, `Transcripts.dfy`, `BrowserView.dfy`, `Accounting.dfy`, `Overlap.dfy` | what holds in every reachable state of the server, and which states are reachable |
| `Json.dfy` | the texts of the broadcasts and their lengths |
| `Browser.dfy` | the page's `onmessage` handler on messages |
| `JsonReader.dfy`, `Screen.dfy` | reading JSON objects of strings, and the `onmessage` handler on the text it receives |
| `Totals.dfy`, `Wrappers.dfy` | sums over sequences, `Option` |

Runs are finite sequences of events. `Exec(s, events)` is the state they lead to, or `None` if one of
them was not enabled, and a property of every reachable state is a lemma about every such sequence. Where a
class method and a machine step are the same code they are tied to one specification: `Released` for
`releaseLock`, `TurnOf` for a worker's turn, `RemoveFirst` for leaving the client list, and `Begin`,
`Write`, `Commit` and `Rollback` for the database calls. The steps of `ConnectionMachine`, the insertion of
`acquireLock`, and the steps that only append to a queue or set a flag are written out again in the machine.

## Where the code differs from what is written about it

The model follows the code. Each difference is stated by a lemma.

* `~ThreadPool` keeps `queue_mutex` while it joins, so with a worker in the pool it never returns
  (`PoolMachine.DestructorNeverFinishes`, and exactly then: `PoolMachine.DestructorCanFinishIffEmpty`). The
  drain theorem is about a variant that unlocks before joining, selected by the flag `unlockFirst`.
* `releaseLock` looks the resource up with `[]`, which inserts owner 0 for a free one. A thread with
  another number leaves a phantom owner (`LockManager.ReleaseIsClean`), which can block every later
  acquirer (`LockMachine.PhantomOwnerBlocks`).
* `acquireLock` implements none of the strategies named in its header and is not re-entrant
  (`LockMachine.RelockNeverProceeds`). Lock ordering is a discipline of its callers: with it there is no
  circular wait (`LockMachine.WaitForIsAcyclic`) and, if no client keeps a lock at its end, no deadlock
  (`LockMachine.NoDeadlock`; what a kept lock does is in `LockMachine.OrderedAtRest`). Clients that nest two
  locks can deadlock exactly when no order fits them all (`LockDeadlock.DeadlockExactlyWhen`).
* The results of `BEGIN` and `COMMIT` are ignored, and all sessions share one connection without a lock.
  `Database.AtomicExactlyWhen` and `Accounting.SafeExactlyWhen` give the exact conditions under which a
  call is all or nothing and under which starting one keeps the reports in agreement with the table.
* A broadcast frame's length goes into one byte, and a client frame's length is read from one byte. Both
  are right exactly up to 125 bytes (`Framing.BroadcastIsReadable`, `Framing.ClientFrameIsReadable`). With the
  JSON around it, that leaves at most 70 characters for a message (`Json.RoundIsReadable`).
* A received text goes into the JSON of its broadcasts unescaped. The page shows it exactly when it has no quote,
  backslash or control character (`Screen.ShowsExactlyWhen`).
* The key header is looked for in one spelling, although header names do not depend on case
  (`Opening.RefusedExactlyWhen`).
* The chat message is broadcast after a rollback too (it is part of `Sessions.Script` whatever the outcome).
* The repository's README offers the "Active Threads" counter as proof that a thread was allocated for a
  new tab. A session announces its thread before its own socket joins the client list, so a page never
  counts its own thread (`BrowserView.PageMissesItsOwnThread`).
* It also offers the "Mutex Locked" event as proof of the mutex. The event is an ordinary broadcast, which gives
  the mutex back before the chat message takes it: with two workers another session's broadcast can come
  between the two (`Overlap.LockEventIsNoLock`).

## Model

| member | source | states |
|---|---|---|
| ServerMachine.WiredRun | backend/src/server/WebSocketServer.cpp:16-158 | in every reachable state the mutex has at most one holder, which is the session broadcasting; every socket in use belongs to one session or one place in the queue; the client list holds each joined session's socket once and nothing else |
| ServerMachine.OpenExactlyWhen | backend/src/server/WebSocketServer.cpp:38-153 | in every reachable state a socket is open if and only if it waits in the queue or belongs to a session that has not closed it: every session closes its socket, its handle can then be accepted again, and a server at rest has no socket open |
| ServerMachine.RemoveFirstRemoves | backend/src/server/WebSocketServer.cpp:84-89 | on a list without repetitions, erasing the first occurrence removes that socket and keeps exactly the others |
| Broadcasts.DeliveredRun | backend/src/server/WebSocketServer.cpp:16-30 | in every reachable state the clients served by the broadcast in progress have the whole log from their join, the others lack only its last entry, those that left have exactly their segment, newcomers have nothing |
| Broadcasts.TotalOrderBroadcast | backend/src/server/WebSocketServer.cpp:16-92 | under every interleaving the frames sent to a client are the contiguous segment of the global broadcast log from its join to its leave, short by one only while a broadcast is in progress |
| Broadcasts.SharedInSameOrder | backend/src/server/WebSocketServer.cpp:16-30 | two clients hold a broadcast they share at the same place in the one log, so they see shared messages in the same order |
| Broadcasts.SendsGoToOpenSockets | backend/src/server/WebSocketServer.cpp:27-29 | every listed socket is open and listed once, whatever handles the system reuses |
| Broadcasts.ServedInJoinOrder | backend/src/server/WebSocketServer.cpp:27-90 | in every reachable state the client list, and so the order in which a broadcast is sent, is the order in which the clients joined |
| Delivery.BytesAreTheInbox | backend/src/server/WebSocketServer.cpp:27-29 | in every run the bytes sent on a socket since it was accepted are the frames of the messages sent on it, in order |
| Delivery.BytesAreTheLog | backend/src/server/WebSocketServer.cpp:16-92 | under every interleaving the bytes sent to a client parse as exactly the broadcasts between its join and its leave, or so far, if and only if each of these has at most 125 bytes |
| Sessions.RecogniserIsExact | backend/src/server/WebSocketServer.cpp:66-157 | the phase automaton accepts a sequence of messages if and only if it is a prefix of a script Spawned (Begun Inserted (Committed or RolledBack) MutexLocked Chat)* Terminated with one thread throughout and one text per round |
| Sessions.ScriptAt | backend/src/server/WebSocketServer.cpp:66-157 | a script message by message: "Thread Spawned" first, "Thread Terminated" last, and for each text the five broadcasts in their order, the third "[COMMIT]" or "[ROLLBACK]" by the outcome |
| Sessions.TrackedRun | backend/src/server/WebSocketServer.cpp:66-157 | in every reachable state what each session has broadcast is in the phase its program counter says |
| Sessions.SessionsFollowTheScript | backend/src/server/WebSocketServer.cpp:66-157 | the broadcasts of every session are a prefix of a script; a session no worker runs has said nothing or a complete script |
| Transcripts.TranscribedRun | backend/src/server/WebSocketServer.cpp:107-150 | in every reachable state what a session has broadcast, its place in handleClient, the texts it has received and the results of their statements agree |
| Transcripts.TranscriptIsTheRequests | backend/src/server/WebSocketServer.cpp:107-150 | in every reachable state the broadcasts of a session are those of the messages it has received, text by text and with the outcome of each statement: all but the last dealt with in full, of the last a beginning or all; a finished session has broadcast the complete transcript or nothing |
| Sessions.SessionBound | backend/src/core/ThreadPool.cpp:5-8 | the number of connected clients never exceeds the number of pool workers |
| BrowserView.ViewedRun | frontend/src/App.jsx:65-77 | in every reachable state, from any starting point in the log, the fold of onmessage shows exactly the workers whose announced session is not over |
| BrowserView.EarlierLog | backend/src/server/WebSocketServer.cpp:16-30 | every prefix of the broadcast log was the whole log at an earlier state of the same run |
| BrowserView.PageShowsTheLog | frontend/src/App.jsx:54-78 | whatever its user sends meanwhile, each panel of a page is the selection of its kind from the log segment between its client's join and the last frame sent to it, the chat panel with the user's own texts besides |
| BrowserView.PageShowsLiveThreads | frontend/src/App.jsx:61-78 | for any client at any moment, activeThreads after consuming its frames is exactly the set of threads announced since it joined by a session whose "Thread Terminated" is not yet in what it was sent |
| BrowserView.PageShowsWorkers | frontend/src/App.jsx:61-78 | between broadcasts, activeThreads equals the set of workers now in a session announced after the client joined |
| BrowserView.PageMissesItsOwnThread | README.md:66 | while a client is connected, at every moment, its page does not show the thread of its own session, which has been announced and is not over |
| BrowserView.PageCountIsShort | README.md:66 | between broadcasts the count on the page is strictly below the number of announced sessions |
| BrowserView.FirstClientConnects | backend/src/server/WebSocketServer.cpp:66-73 | a state with a connected client is reachable: the first client of a pool of one worker |
| Overlap.InterruptionReachable | backend/src/server/WebSocketServer.cpp:144-150 | with two workers a run reaches a log with worker 1's "[COMMIT]" between worker 0's "Mutex Locked" event and the chat message it announces |
| Overlap.LockEventIsNoLock | backend/src/server/WebSocketServer.cpp:144-150 | another session's broadcast can come between a "Mutex Locked" event and its chat message if and only if the pool has at least two workers |
| Accounting.QueriesAreOneCall | backend/src/db/DBConnection.cpp:22-34 | a session's BEGIN, INSERT and COMMIT or ROLLBACK steps with nothing in between have the effect and result of one executeTransaction, whichever control statements work |
| Accounting.SerialIsARun | backend/src/server/WebSocketServer.cpp:133 | the runs without overlapping calls, in which given control statements work, are runs of the server |
| Accounting.ReportsAgree | backend/src/server/WebSocketServer.cpp:132-142 | while calls do not overlap and no BEGIN or COMMIT is refused, for statements that add their text as a row or fail, in every reachable state the rows added are, for every set of texts, those of the "[COMMIT]" broadcasts plus those of handlers between success and the report; and so in number |
| Accounting.SafeExactlyWhen | backend/src/server/WebSocketServer.cpp:133 | after a run in which nothing was refused, starting a call keeps the accounts in all that may follow if and only if no other call is between its BEGIN and its COMMIT or ROLLBACK, and BEGIN and COMMIT will work; ROLLBACK does not matter |
| Overlap.OverlapReachable | backend/src/server/WebSocketServer.cpp:133 | with two workers a run reaches a call of executeTransaction about to start while another is under way |
| Overlap.OverlapExactlyWhen | backend/src/server/WebSocketServer.cpp:133 | such a state is reachable, with nothing refused before, if and only if the pool has at least two workers |
| Accounting.OverlapLoses | backend/src/server/WebSocketServer.cpp:133 | a call let in during another's transaction can go on, in the same run, so that one of the two returns true for a row that is not in the table |
| Accounting.OverlapIsReported | backend/src/server/WebSocketServer.cpp:133-142 | and then so that the only thing added to the log is a "[COMMIT]", and to the table nothing |
| Accounting.RefusedCommitLoses | backend/src/db/DBConnection.cpp:32-33 | a call made alone whose COMMIT is refused returns true and its row is not in the table |
| Accounting.LossIsReported | backend/src/server/WebSocketServer.cpp:136-138 | whatever broadcast is in progress, a handler that has been told of success can go on to broadcast "[COMMIT]" without touching the table |
| WebSocketServer.WebSocketServer.constructor | backend/src/server/WebSocketServer.cpp:9-11 | a new server has no clients and has sent nothing |
| WebSocketServer.WebSocketServer.BroadcastMessage | backend/src/server/WebSocketServer.cpp:16-30 | every listed client is sent the message's frame once and nobody else anything |
| WebSocketServer.WebSocketServer.JoinClient | backend/src/server/WebSocketServer.cpp:70-73 | the socket is appended to the list, which stays free of repetitions |
| WebSocketServer.WebSocketServer.LeaveClient | backend/src/server/WebSocketServer.cpp:83-90 | the iterator loop removes the first occurrence and nothing else, and the list stays free of repetitions |
| WebSocketServer.ReceiveRequest | backend/src/server/WebSocketServer.cpp:77-112 | a received frame is unmasked and its prefix interpreted as specified, and the text is at most 127 bytes |
| WebSocketServer.BrowserFrameIsRead | backend/src/server/WebSocketServer.cpp:94-112 | told from the bytes of a masked frame of at most 125 characters, under every key: the server reads exactly the text and the rollback choice the user made, if and only if the rollback was forced or the text does not start with "/rollback " |
| WebSocketServer.WebSocketServer.ServeRequest | backend/src/server/WebSocketServer.cpp:114-150 | one request is one transaction, whichever control statements work, and five broadcasts, the third being its outcome |
| WebSocketServer.WebSocketServer.ReadLoop | backend/src/server/WebSocketServer.cpp:76-151 | the broadcasts are the rounds of the requests received, and the engine is the one after their transactions in order |
| WebSocketServer.WebSocketServer.HandleClient | backend/src/server/WebSocketServer.cpp:36-158 | a request without the key header is not answered and nothing happens; otherwise it is answered as specified, and a whole uninterrupted session broadcasts its script, runs its transactions and leaves the client list as it was |
| WebSocketServer.WebSocketServer.RunSession | backend/src/server/WebSocketServer.cpp:61-158 | the session after its handshake: its script, its transactions, and the client list as before |
| WebSocketServer.SessionIsHeard | backend/src/server/WebSocketServer.cpp:66-157 | the bytes a session puts on each socket: the whole script for clients connected before, all but its first and last message for its own client, nothing for others |
| WebSocketServer.StreamIsTheMessages | backend/src/server/WebSocketServer.cpp:19-29 | a browser parses the byte stream of its socket back into the messages sent if and only if each has at most 125 bytes |
| Json.EveryBroadcastFits | backend/src/server/WebSocketServer.cpp:19-25 | with thread identifiers of at most 20 characters, no broadcast of a received text is longer than the send buffer holds |
| Json.LengthOf | backend/src/server/WebSocketServer.cpp:67-156 | the length of each JSON text is that of its fixed part and of the text it carries |
| Screen.TextIsPrinted | backend/src/server/WebSocketServer.cpp:67-156 | the text of every broadcast is the JSON object of its fields, spelt out |
| JsonReader.ReadBackExactlyWhen | backend/src/server/WebSocketServer.cpp:125-149 | an object printed without escapes whose other keys and values are clean is read back if and only if its last value has no quote, backslash or control character; otherwise nothing is read, or values shorter than the one printed |
| JsonReader.EscapedIsRead | backend/src/server/WebSocketServer.cpp:125-149 | the reader gives back every text that is escaped as section 7 of RFC 8259 wants it, which the server does not do |
| Screen.BroadcastIsReadBack | backend/src/server/WebSocketServer.cpp:125-149 | a page reads the fields of a broadcast from its JSON if and only if the text it carries is clean in this sense |
| Screen.ShowsExactlyWhen | frontend/src/App.jsx:44-82 | onmessage on the JSON text of a broadcast changes what is on the screen as it should, for every page, if and only if the text is clean |
| Screen.BytesToScreen | frontend/src/App.jsx:44-82 | under every interleaving, a page that parses the bytes sent to it and their JSON shows exactly the panels and threads of the messages broadcast from its join to its leave, or so far, if the texts among them are short, ASCII and clean |
| Json.RoundIsReadable | backend/src/server/WebSocketServer.cpp:125-150 | browsers can read all five broadcasts about a text if and only if it has at most 70 characters, and at most 72 together with the thread identifier |
| Json.ClientReadsTheLog | backend/src/server/WebSocketServer.cpp:16-92 | under every interleaving the bytes sent to a client parse as exactly the JSON texts broadcast from its join to its leave, or so far, if and only if no text among them is too long |
| WebSocketServer.CallIsAccounted | backend/src/db/DBConnection.cpp:22-34 | for a statement that adds its text as a row or fails, a call made with no work pending adds exactly the row it reports if and only if it fails, its COMMIT works, or its BEGIN was refused outside a transaction |
| WebSocketServer.RowsAreTheCommitted | backend/src/server/WebSocketServer.cpp:132-142 | an uninterrupted session whose COMMITs work adds to the table exactly the texts it reports as committed, in order, and leaves no work pending, for statements that add their text as a row or fail |
| Database.TransactionIsAtomic | backend/src/db/DBConnection.cpp:22-34 | with no transaction open and working control statements, a call applies the whole fold of its queries and returns true, or changes nothing and returns false, and is true exactly when every query succeeds |
| Database.AtomicExactlyWhen | backend/src/db/DBConnection.cpp:22-34 | every workload is all or nothing if and only if no transaction is open before the call and BEGIN, COMMIT and ROLLBACK all work |
| Database.FailedCommitLosesRows | backend/src/db/DBConnection.cpp:32-33 | a refused COMMIT is reported as success and the next failing call takes its rows away |
| Database.InterleavingLosesRows | backend/src/server/WebSocketServer.cpp:133 | a failing call made on the shared connection between another call's queries and its COMMIT: the other call returns true, and the database is the one before both |
| Database.DBConnection.ExecuteTransaction | backend/src/db/DBConnection.cpp:22-34 | the loop computes the transaction function for any queries and any failures of the control statements, on the file and on the handle's own transaction; a null handle gives false |
| LockManager.ReleaseIsClean | backend/src/core/LockManager.cpp:24-28 | a release takes away exactly the caller's own entry if and only if the resource is owned or the caller is thread 0; otherwise it leaves owner 0 |
| LockManager.LockManager.TryAcquire | backend/src/core/LockManager.cpp:14-16 | the wait predicate holds exactly for a free resource, which then gets the caller as owner; otherwise nothing changes |
| LockManager.LockManager.ReleaseLock | backend/src/core/LockManager.cpp:25-28 | the map after a release is the specified one, phantom owner included |
| LockManager.LockManager.AcquireRelease | backend/src/core/LockManager.cpp:13-33 | acquiring a free lock and releasing it restores the whole map |
| LockMachine.NoLostWakeup | backend/src/core/LockManager.cpp:13-33 | whatever the clients do, a thread asleep on a lock sleeps only while the lock is owned |
| LockMachine.SoundRun | backend/src/core/LockManager.cpp:13-33 | in every reachable state exactly the thread inside acquire or release holds the mutex, and a sleeper's lock is owned |
| LockMachine.KnotIsForever | backend/src/core/LockManager.cpp:13-33 | whatever the clients do, a set of owned locks whose owners are no threads, finished, or waiting for one of the set keeps its owners for ever, and no thread that needs one of them moves on |
| LockMachine.RelockNeverProceeds | backend/src/core/LockManager.cpp:15 | a thread that locks what it already owns never proceeds |
| LockMachine.PhantomOwnerBlocks | backend/src/core/LockManager.cpp:26 | after releasing a free lock, when no thread is numbered 0, the lock is owned by 0 in every later state and nobody is ever granted it |
| LockMachine.LockTableIsExact | backend/src/core/LockManager.cpp:13-33 | when clients (thread 0 excepted) release only what they hold, in whatever order they lock, the owner map is the set of actual holders in every reachable state and no lock has two holders |
| LockMachine.TidyRun | backend/src/core/LockManager.cpp:13-33 | that discipline, exactness of the owner map and soundness are kept by every run, and clients that end with nothing held go on to do so |
| LockTable.ExactExactlyWhen | backend/src/core/LockManager.cpp:24-28 | for clients that never lock what they hold, the owner map is the set of holders in every reachable state if and only if every client, thread 0 excepted, releases only what it holds |
| LockTable.RelockIsReachable | backend/src/core/LockManager.cpp:15 | a thread reaches a second acquire of a lock it owns, which never returns |
| LockTable.PhantomIsReachable | backend/src/core/LockManager.cpp:26 | a thread other than 0 reaches a release of a free lock |
| LockMachine.CycleNeverDissolves | backend/include/core/LockManager.h:16-17 | whatever the clients do, a circular wait of any length stays, with its threads where they are, in every continuation |
| LockMachine.UnfinishedAtRest | backend/include/core/LockManager.h:16-17 | for clients that release only what they hold, a reachable state in which no thread has a step of its own is unfinished if and only if it contains a circular wait or a wait for a lock that a finished client has kept |
| LockMachine.DeadlockIsACycle | backend/include/core/LockManager.h:16-17 | if these clients also end with nothing held, it is unfinished if and only if it contains a circular wait |
| LockMachine.OrderedAtRest | backend/include/core/LockManager.h:16-17 | for ordered clients, it is unfinished if and only if some client waits for a lock that a finished one has kept |
| LockMachine.WaitForIsAcyclic | backend/include/core/LockManager.h:16-17 | for clients that lock in increasing order and release only what they hold, whatever they hold at the end, no reachable wait-for graph has a cycle |
| LockMachine.NoDeadlock | backend/include/core/LockManager.h:16-17 | for ordered clients that end with nothing held, any number of them, until all are finished some thread can take a step of its own |
| LockMachine.RunIsBounded | backend/src/core/LockManager.cpp:13-33 | the length of a run is bounded by a measure of its start plus three steps per spurious wakeup |
| LockMachine.SpuriousIsHarmless | backend/src/core/LockManager.cpp:15 | a spurious wakeup of a sleeping thread, followed by the check, leads back to the same state |
| LockDeadlock.OuterLocksTaken | backend/include/core/LockManager.h:16-17 | the clients of a ring, each wanting as inner lock the outer lock of the next, can all take their outer locks |
| LockDeadlock.OrderOrRing | backend/include/core/LockManager.h:16-17 | for any nested pairs of locks there is an order of the resources that fits them all, or a ring of clients |
| LockDeadlock.ComesToRest | backend/src/core/LockManager.cpp:13-33 | every state has a continuation to one in which no thread has a step of its own |
| LockDeadlock.DeadlockExactlyWhen | backend/include/core/LockManager.h:16-17 | any number of clients that each take two nested locks can deadlock if and only if no order of the resources fits them all, which is if and only if they contain a ring |
| LockDeadlock.TwoClientsDeadlock | backend/include/core/LockManager.h:16-17 | two clients that each take two different locks can deadlock if and only if their orders are opposite |
| LockDeadlock.KeptLockStrands | backend/include/core/LockManager.h:16-17 | ordered clients that keep a lock: a reachable state at rest in which one waits for a lock that the other, finished, has kept |
| LockMachine.NoLostUpdate | tests/test_race_conditions.cpp:14-29 | every complete run of N threads with k rounds of acquire, read, write, release leaves the counter at N * k |
| LockMachine.IncrementersProceed | tests/test_race_conditions.cpp:14-29 | an incomplete run of the incrementers can always go on |
| Unlocked.UnlockedLeaves | tests/test_race_conditions.cpp:14-29 | without the lock, n threads that increment the counter once each can leave it at any value from 1 to n, and at no other |
| ThreadPool.ThreadPool.constructor | backend/src/core/ThreadPool.cpp:5-8 | the loop starts as many workers as asked for, with an empty queue |
| ThreadPool.ThreadPool.WorkerTurn | backend/src/core/ThreadPool.cpp:38-43 | a worker takes the front of a non-empty queue even after stop, returns on an empty queue after stop, and sleeps otherwise |
| PoolMachine.ControlRun | backend/src/core/ThreadPool.cpp:13-46 | who holds the mutex, and that after stop nobody sleeps and only joined or leaving workers are done, in every reachable state |
| PoolMachine.DispatchIsExactlyOnce | backend/src/core/ThreadPool.cpp:26-46 | the submitted sequence is the dequeued one followed by the queue; every dequeued task is running on exactly one worker or completed, never both |
| PoolMachine.HistoryRun | backend/src/core/ThreadPool.cpp:13-33 | what a state records as submitted, and as submitted before the shutdown, is what its run submitted, in order |
| PoolMachine.WorkIsConserved | backend/src/core/ThreadPool.cpp:26-46 | either no worker sleeps or the queue is no longer than the number of workers about to check it |
| PoolMachine.SpuriousIsHarmless | backend/src/core/ThreadPool.cpp:38 | a spurious wakeup on an empty queue, followed by the check, leads back to the same state |
| PoolMachine.DestructorNeverFinishes | backend/src/core/ThreadPool.cpp:13-24 | with a worker in the pool no reachable state of the code as written has the destructor finished |
| PoolMachine.DestructorCanFinishIffEmpty | backend/src/core/ThreadPool.cpp:13-24 | some run finishes the destructor if and only if the pool has no workers |
| PoolMachine.ShutdownDrains | backend/src/core/ThreadPool.cpp:13-46 | in the unlock-before-join variant every task that the run submitted before the shutdown has been taken, in order, and completed when the destructor returns |
| PoolMachine.LeaveRun | backend/src/core/ThreadPool.cpp:38-41 | no worker leaves before every task submitted ahead of the shutdown has been taken |
| PoolMachine.PoolProceeds | backend/src/core/ThreadPool.cpp:13-46 | while it runs the pool can always take a step of its own (no submission, spurious wakeup or destructor call) unless it is idle: all workers asleep and, with a worker in the pool, the queue empty; so can the unlock-before-join variant until its destructor has returned |
| PoolMachine.DestructorReturns | backend/src/core/ThreadPool.cpp:13-46 | in the variant, once the destructor is called and nobody submits, the pool's own steps are bounded in number, give out if and only if the destructor has returned, and then every job submitted before is completed |
| PoolMachine.DestructorCanReturn | backend/src/core/ThreadPool.cpp:13-24 | from every reachable state in which the destructor has been called it can return if and only if it is the variant's or the pool has no workers |
| PoolMachine.RunIsBounded | backend/src/core/ThreadPool.cpp:13-46 | a run is no longer than a measure of its start plus six steps per submission and three per spurious wakeup |
| PooledServer.StaysLinked | backend/src/server/WebSocketServer.cpp:168 | the server's queue is the pool's and a worker runs a session exactly while it runs a job: every step of the pair keeps this |
| PooledServer.RunsOfBoth | backend/src/core/ThreadPool.cpp:26-46 | every run of the server on its pool, where the pool alone decides when a queued connection gets a worker, is a run of the server's machine and of the pool's |
| PooledServer.PoolBoundsSessions | backend/src/core/ThreadPool.cpp:5-8 | no more clients are connected than the pool has workers, and connections get a worker in the order they were accepted |
| PooledServer.QueueIsStranded | backend/src/core/ThreadPool.cpp:13-24 | once the pool's destructor as written has begun, no connection waiting in the queue is ever served |
| ConnectionPool.ConnectionPool.constructor | backend/src/db/ConnectionPool.cpp:5-13 | as many distinct new connections as asked for are queued, all on one file, whether or not connecting worked |
| ConnectionPool.ConnectionPool.TryGet | backend/src/db/ConnectionPool.cpp:25-31 | the front of the queue is taken, or nothing if the queue is empty |
| ConnectionPool.ConnectionPool.Destroy | backend/src/db/ConnectionPool.cpp:15-20 | every queued connection is closed and the queue is empty |
| ConnectionMachine.PoolIsConserved | backend/src/db/ConnectionPool.cpp:24-41 | free and checked-out connections together are always the original ones, and a client sleeps only while none is free |
| ConnectionMachine.HandedInOrder | backend/src/db/ConnectionPool.cpp:24-41 | over every run connections are handed out in the order they were queued: first the original ones, then those given back, and the rest is still in the queue |
| ConnectionMachine.NoConnectionShared | backend/src/db/ConnectionPool.cpp:24-41 | no connection is both free and in use, or used by two clients |
| ConnectionMachine.RunIsBounded | backend/src/db/ConnectionPool.cpp:24-41 | a run is no longer than a measure of its start plus three steps per spurious wakeup |
| ConnectionMachine.SpuriousIsHarmless | backend/src/db/ConnectionPool.cpp:26-28 | a spurious wakeup of a sleeping client, followed by the check, leads back to the same state |
| ConnectionMachine.ClientsProceed | tests/test_connection_pool.cpp:8-32 | with at least one connection a run that is not complete can go on |
| ConnectionMachine.PoolIsFullAgain | tests/test_connection_pool.cpp:8-32 | when all clients have finished the pool holds its original connections |
| ConnectionMachine.CompletesExactlyWhen | tests/test_connection_pool.cpp:8-32 | all clients can finish if and only if the pool has a connection or nobody wants one |
| ConnectionMachine.EmptyPoolServesNobody | backend/src/db/ConnectionPool.cpp:26-28 | with no connections no client ever gets one |
| Framing.BuildFrame | backend/src/server/WebSocketServer.cpp:19-25 | for messages up to 4094 bytes the buffer holds the specified frame |
| Framing.FrameIsText | backend/src/server/WebSocketServer.cpp:20-21 | every broadcast is one final text frame without reserved bits, by section 5.2 of RFC 6455; its second byte is the length exactly up to 255 bytes |
| Framing.SectionSamples | backend/src/server/WebSocketServer.cpp:19-105 | the single-frame samples of section 5.7 of RFC 6455: what is sent for "Hello", what a browser sends for it, and what the server makes of that |
| Framing.ExtendedFrameParses | backend/src/server/WebSocketServer.cpp:21 | the decoder is right about lengths in 16 bits, which the server never sends |
| Framing.LongestFrameParses | backend/src/server/WebSocketServer.cpp:21 | and about lengths in 64 bits |
| Framing.MaskBitIsRefused | backend/src/server/WebSocketServer.cpp:21 | the frame of a message of 128 to 255 bytes has the mask bit set and is refused |
| Framing.BroadcastIsReadable | backend/src/server/WebSocketServer.cpp:19-25 | a decoder for section 5.2 of RFC 6455 recovers the message if and only if it has at most 125 bytes |
| Framing.ShortFrameParses | backend/src/server/WebSocketServer.cpp:19-25 | a short frame is read back exactly whatever follows it on the stream |
| Framing.StreamIsReadable | backend/src/server/WebSocketServer.cpp:19-29 | a stream of short broadcasts is read back as the same messages in order |
| Framing.StreamIsReadableExactlyWhen | backend/src/server/WebSocketServer.cpp:19-29 | a stream of broadcasts is read back as the same messages if and only if all of them have at most 125 bytes |
| Framing.ShortFrameUnmasks | backend/src/server/WebSocketServer.cpp:95-105 | masking per section 5.3 of RFC 6455 and the server's unmasking are inverse for a frame of at most 125 bytes, under every key |
| Framing.ShortFrameBytes | backend/src/server/WebSocketServer.cpp:94-105 | the same told from the bytes of the frame: length, key, and each payload byte XORed with its key byte |
| Framing.MaskedLengthTells | backend/src/server/WebSocketServer.cpp:95 | the length field of a browser's frame has the mask bit and tells the length, in 7, 16 or 64 bits |
| Framing.ReceivedIs | backend/src/server/WebSocketServer.cpp:77-78 | the receive buffer holds 4096 bytes, the frame as far as it goes and zeros after it |
| Framing.LongFrameIsGarbled | backend/src/server/WebSocketServer.cpp:95-105 | a longer payload has a masking key under which the server does not recover it |
| Framing.ClientFrameIsReadable | backend/src/server/WebSocketServer.cpp:95-105 | the payload is recovered under all keys if and only if it has at most 125 bytes |
| Framing.RequestIsUnderstood | frontend/src/App.jsx:103-107 | under every masking key the server sees the user's rollback choice and text, if and only if the payload has at most 125 bytes and the rollback was forced or the text does not start with the prefix |
| Framing.InterpretIsInjective | backend/src/server/WebSocketServer.cpp:107-112 | nothing is lost in reading the prefix: the payload rule gives the decoded bytes back |
| Framing.DecodeBytes | backend/src/server/WebSocketServer.cpp:101-105 | the loop computes the masking of the payload bytes |
| Framing.ReadFrame | backend/src/server/WebSocketServer.cpp:95-112 | the received buffer is read as the specified request |
| Handshake.ComputeAcceptKey | backend/src/server/WebSocketServer.cpp:50-53 | the accept key is base64 of SHA-1 of the key and the GUID |
| Handshake.AcceptKeyCarriesDigest | backend/src/server/WebSocketServer.cpp:50-53 | it always has 28 characters and decodes to the digest |
| Handshake.AcceptKeyInjective | backend/src/server/WebSocketServer.cpp:50-53 | two keys are answered alike if and only if their digests agree |
| Handshake.AcceptKeyPadding | backend/src/server/WebSocketServer.cpp:50-53 | it ends in one padding sign and has no other |
| Handshake.SampleKeyIsAnswered | backend/src/server/WebSocketServer.cpp:50-53 | the sample key of section 1.3 of RFC 6455 gets the accept key given there, as literal text |
| Opening.RefusedExactlyWhen | backend/src/server/WebSocketServer.cpp:43-48 | a request is refused if and only if "Sec-WebSocket-Key: " does not occur in it, in just this spelling |
| Opening.KeyIsFound | backend/src/server/WebSocketServer.cpp:43-50 | a key of 24 characters after the first such header is found, whatever stands around it |
| Opening.ResponseCarries | backend/src/server/WebSocketServer.cpp:55-58 | the response has the status line and the headers that a client checks by section 4.1 of RFC 6455, carries the accept key it was built with, and ends in an empty line |
| Opening.KeyIsAnswered | backend/src/server/WebSocketServer.cpp:43-59 | a client that sends a key of 24 characters reads in the answer the accept key for it |
| Base64.Base64Encode | backend/include/server/crypto/base64.h:8-35 | the accumulator loop computes the group-of-three definition of section 4 of RFC 4648 for every byte sequence |
| Base64.PushByte | backend/include/server/crypto/base64.h:15-25 | one turn of the loop keeps the output and the buffer an encoding of the bytes read so far |
| Base64.ReadBytes | backend/include/server/crypto/base64.h:15-25 | the loop leaves the whole groups encoded and the rest in the buffer |
| Base64.EncodeWhole | backend/include/server/crypto/base64.h:18-22 | a full byte buffer becomes the four letters of its group |
| Base64.SplitGroup | backend/include/server/crypto/base64.h:18-21 | the letter buffer holds the sextets of the 24-bit group the byte buffer makes |
| Base64.AppendLetters | backend/include/server/crypto/base64.h:22 | the letters of the buffered sextets are appended in order |
| Base64.EncodeTail | backend/include/server/crypto/base64.h:26-33 | the left-over bytes become letters and padding as specified |
| Base64.MasksAreSextets | backend/include/server/crypto/base64.h:18-21 | the masks and shifts of the code take the four sextets of the 24-bit group |
| Base64.RoundTrip | backend/include/server/crypto/base64.h:8-35 | a strict decoder returns the bytes encoded |
| Base64.DecodeIsExact | backend/include/server/crypto/base64.h:8-35 | and it accepts nothing but encodings: what it decodes encodes back to the same text |
| Base64.EncodeInjective | backend/include/server/crypto/base64.h:8-35 | different byte sequences have different encodings |
| Base64.EncodeLength | backend/include/server/crypto/base64.h:8-35 | the length is four times the number of groups, rounded up |
| Base64.PaddingSigns | backend/include/server/crypto/base64.h:26-33 | an encoding ends in "==", "=" or no padding sign as its length leaves one, two or no bytes over, and has no other |
| Base64.EncodedText | backend/include/server/crypto/base64.h:8-35 | an encoding has letters, digits, "+", "/" and the padding, and nothing else |
| Base64.EncodeConcat | backend/include/server/crypto/base64.h:15-25 | encoding distributes over concatenation when the first part is whole groups |
| Sha1.Sha1 | backend/include/server/crypto/sha1.h:12-45 | the code computes the digest defined in section 6.1.2 of FIPS 180-4 |
| Sha1Vectors.AbcDigest | backend/include/server/crypto/sha1.h:12-45 | the published digest of "abc", as literal bytes |
| Sha1Vectors.LongDigest | backend/include/server/crypto/sha1.h:12-45 | the published digest of the message of 56 bytes, which takes two blocks |
| Sha1Vectors.KeyDigest | backend/include/server/crypto/sha1.h:12-45 | the digest of the sample key of section 1.3 of RFC 6455 and the GUID, as given there |
| Sha1.FillZeros | backend/include/server/crypto/sha1.h:15-16 | the fill loop terminates and appends the least number of zeros |
| Sha1.AppendLength | backend/include/server/crypto/sha1.h:17 | the length in bits is appended big-endian in eight bytes |
| Sha1.ShiftOut | backend/include/server/crypto/sha1.h:17 | shifting and masking takes the i-th byte of the length |
| Sha1.PadMessage | backend/include/server/crypto/sha1.h:13-17 | the buffer is the padded message |
| Sha1.PadIsLeast | backend/include/server/crypto/sha1.h:13-17 | padding gives the least multiple of 64 bytes that fits the message, 0x80 and the length |
| Sha1.PadSuffixFree | backend/include/server/crypto/sha1.h:13-17 | below 2^61 bytes no padded message is a suffix of another's; in particular padding is injective |
| Sha1.LengthFieldInjective | backend/include/server/crypto/sha1.h:14-17 | below 2^61 bytes the length field determines the length |
| Sha1.LoadWords | backend/include/server/crypto/sha1.h:21-23 | the first sixteen words are the block's bytes packed big-endian |
| Sha1.PackIsBijective | backend/include/server/crypto/sha1.h:22 | packing four bytes into a word and taking its bytes are inverse |
| Sha1.ExpandWords | backend/include/server/crypto/sha1.h:24 | the loop fills in the schedule of section 6.1.2 of FIPS 180-4 |
| Sha1.NextWord | backend/include/server/crypto/sha1.h:24 | the recurrence with shifts is the one with a rotation |
| Sha1.WindowDeterminesSchedule | backend/include/server/crypto/sha1.h:24 | any sixteen consecutive schedule words determine all eighty |
| Sha1.ScheduleInjective | backend/include/server/crypto/sha1.h:20-24 | different blocks have schedules that differ inside every window of sixteen words |
| Sha1.LeftRotateIsRotation | backend/include/server/crypto/sha1.h:8-10 | the two shifts are a rotation for the counts used |
| Sha1.OrFormOfCh | backend/include/server/crypto/sha1.h:28 | the OR form of Ch equals the XOR form of section 4.1.1 of FIPS 180-4 |
| Sha1.OrFormOfMaj | backend/include/server/crypto/sha1.h:30 | likewise for Maj |
| Sha1.SelectFunction | backend/include/server/crypto/sha1.h:27-31 | the branches choose the function and constant of the round |
| Sha1.RunRounds | backend/include/server/crypto/sha1.h:25-34 | the loop is the eighty rounds of the definition |
| Sha1.RoundsAreInvertible | backend/include/server/crypto/sha1.h:26-34 | for any schedule the rounds are a bijection on the five-word state, with an explicit inverse loop |
| Sha1.RunBlock | backend/include/server/crypto/sha1.h:20-35 | one turn of the block loop is one compression |
| Sha1.HashBlocks | backend/include/server/crypto/sha1.h:18-36 | the block loop chains the compressions from the initial value |
| Sha1.EmitHash | backend/include/server/crypto/sha1.h:38-44 | the twenty output bytes are the five words big-endian |
| Sha1.EmitWord | backend/include/server/crypto/sha1.h:39-43 | one output loop writes one word big-endian and keeps what is before it |
| Browser.PanelsHoldTheFrames | frontend/src/App.jsx:54-78 | the chat, system and database panels hold the frames of their kind in order, the chat panel also the user's own texts in order, and each is in exactly one place; an empty text is never sent |
| Browser.SendingKeepsThreads | frontend/src/App.jsx:103-110 | what the user sends does not change the thread set |

## Left out

- Sockets: `recv` is an arbitrary input, `send` is an append to what the socket was sent; a send that fails, and TCP frames split over or joined in one `recv`, are not modelled (the code reads one frame per `recv`).
- Handles: an accepted socket gets any handle not open at the time, so handles may be reused.
- The opening request: the text up to its first zero byte, received in one `recv`. Its other headers are not looked at, as in the code. In `ServerMachine` a handshake succeeds or fails.
- Binary, close, ping and continuation frames from a client.
- SQL: an engine makes of a statement what a parameter says, and may refuse or fail any statement; a statement holds no transaction control. `Accounting` and `WebSocketServer.RowsAreTheCommitted` take statements that add their text as a row or fail, which a text containing SQL need not do. That the statement of a forced rollback always fails is a fact about the schema and not modelled: any statement may fail.
- JSON: the machines have messages as a datatype, `Json` gives their texts for any printed form of the thread identifiers, and `Screen` reads them back. The reader knows objects whose values are strings: nested values, which only a text that breaks the JSON could bring in, count as unreadable, and half of a surrogate pair is read as U+FFFD. Time stamps, React rendering, reconnecting, and the "history" message, which the server never sends, are not modelled.
- Screen.BytesToScreen: about ASCII texts, because UTF-8 is not modelled, and in one direction; `Screen.ShowsExactlyWhen` has both for each message.
- Thread identifiers: a worker's index stands for `std::this_thread::get_id()`.
- Waiting loops: class methods hold the code run under a mutex, up to where it waits; sleeping, waking and re-checking are steps of the machines. The short critical sections of `submitTask`, `releaseConnection` and the join and leave of a client are single steps.
- `ThreadPool` after shutdown begins: tasks submitted later than that are not promised to run, and tasks that throw are not modelled.
- WebSocketServer.WebSocketServer.BroadcastMessage: requires a message of at most 4094 bytes, because the buffer holds no more and the code does not check; no broadcast of a received text is longer (`Json.EveryBroadcastFits`).
- Framing.BuildFrame: likewise, since it fills that buffer.
- WebSocketServer.WebSocketServer.HandleClient: runs one session with no other in between; the interleavings are those of `ServerMachine`.
- Framing.LongFrameIsGarbled: gives one key for each long payload; for some keys a long payload may be recovered by chance.
- ConnectionPool.ConnectionPool.constructor: the connections share a file and each has its own transaction; how the database keeps such transactions apart is not modelled (the server uses a single connection).
- ConnectionPool.ConnectionPool.Destroy: closes the queued connections only, as the code does; those still checked out stay open.
- Wait-Die and timeouts: named in a comment of `LockManager.h`, not implemented.
- `ConnectionManager`, `TCPServer`, `main.cpp`, `Protocol.h`, `Models.h` and the unused React components: stubs, plain records or operating system calls.
