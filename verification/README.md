# Verified models of a distributed file system's lower layers

This project models, in Dafny, the layers below the file system of a small
distributed file server written in C++, and proves what they are for:

- an RPC library that executes each call at most once over a network that loses,
  duplicates and reorders messages (`rpc/rpc.cc`);
- a caching lock protocol tied to a write-back extent cache (`lock_client_cache.cc`,
  `lock_server_cache.cc`, `extent_client.cc`, `extent_server.cc`);
- the typed wire format and the length-prefixed framing below it (`rpc/marshall.h`,
  `rpc/rpc.cc`, `rpc/connection.cc`);
- the callback manager, the thread pool and the timeouts that carry all of it
  (`rpc/pollmgr.cc`, `rpc/fifo.h`, `rpc/thr_pool.cc`, `rpc/rpc.cc`).

`dafny verify dfyconfig.toml` checks everything.

## How it is organised

Each component has up to three parts.

1. Functions on values say what one critical section, or one list operation, does.
2. Classes with the source's fields and loops are proved to compute those functions, which the
   steps of the transition system use or are proved to agree with.
3. A transition system puts the sections together with all their interleavings. A run is
   any sequence of steps each of which is enabled when it is taken; the theorems hold for
   every run.

| component | functions | classes | runs and theorems |
|---|---|---|---|
| at-most-once RPC | `XidWindow`, `ReplyWindow` | `RpcEndpoints` | `AtMostOnce`, `AtMostOnceProofs`, `AtMostOnceTheorems`, `AtMostOnceHistory`, `AtMostOnceReplies` |
| locks and extents | `LockProtocol`, `Extents` | `LockCaches`, `Extents` | `LockSystem`, `LockSections`, `LockProofs`, `LockTheorems`, `LockAnswers`, `ManyLocks` |
| wire format | `Wire`, `WireProofs` | `Marshalling`, `Unmarshalling` | |
| framing | `Framing` | `Connections` | `FramingSystem`, `FramingTheorems`, `FramingProgress` |
| callbacks | `Polling` | `Polling` | `PollSystem`, `PollTheorems`, `PollDispatch` |
| thread pool | | `ThrPool` | `ThrPool`, `ThrPoolTheorems` |
| timeouts | | `Timers` | |

Messages on the network form growing sets: one that is never received is lost, one received
twice is duplicated. Clocks, handler results, the outcomes of `read`, `write` and `select`, and
the moment at which an end of a connection dies are parameters of steps or methods.

## Where the code does not do what it is for

Three laws at the centre of the repository fail for some runs of the code as it stands. For each
there is a concrete run, and the exact condition under which the law does hold.

- The server stores `xid_rep` as its new bound without taking a maximum (rpc/rpc.cc:712), so the
  bound can fall and a late duplicate of a completed call is executed again
  (`LateDuplicateRunsTwice`). Duplicates are recognised throughout a run if and only if no
  accepted request would uncover a forgotten call (`RecognisesIffNeverUncovers`). Calls that are
  still waiting are safe without any condition (`WaitingCallsAreSafe`).
- `give_back` tests a lock without the mutex and writes NONE later (lock_client_cache.cc:26-31). If a
  thread takes the lock in between, two threads can hold it (`StaleGiveBackBreaksExclusion`). Say
  that the lock works when there is one holder, the server's record of the owner is exact, and no
  release or retry under way would discard a held lock. At every moment of a run the lock works and
  keeps working on every continuation with timely give-backs, if and only if each write of
  `give_back` in the run finds the lock FREE (`WorksIffTimely`): a stale one always leads to a
  release that the server must not obey, though the next client to ask may or may not turn it into a
  second holder. The theorems about mutual exclusion, waiters and coherence are about timely runs.
- `block_remove_fd` waits on a condition variable without a loop (rpc/pollmgr.cc:66). A wake-up
  without a broadcast lets it return while a callback for the descriptor is running
  (`EarlyWakeReturnsDuringCallback`), or after the poll thread has tested the descriptor's entry and
  before it calls through that entry, which is gone by then (`EarlyWakeReturnsBeforeCallback`,
  rpc/pollmgr.cc:116-117). In any state at all its return is safe if and only if the poll thread is
  in neither of these two places (`ReturnIsSafeIff`), and without such wake-ups that is always so
  (`RemovalIsQuiescent`, `ReturnMeansRemoved`).

A pool of zero workers accepts jobs that nobody runs; `CompleteIffWorkers` says that it is the only
exception to a complete shutdown.

## Model

| member | source | states |
|---|---|---|
| `AtMostOnceTheorems.WaitingCallsAreSafe` | rpc/rpc.cc:498-643 | On any network, a call still waiting at its client has been accepted at most once, no copy of its request can be classified FORGOTTEN, and every reply sent for it carries what its one execution returned; that replies are sent is stated by `DispatchAnswers` and `RedeliveryResends` |
| `AtMostOnceTheorems.CompletedCallsGotTheirExecution` | rpc/rpc.cc:348-382 | Whatever happened before or after, a call completed by a reply got exactly the bytes that its first execution produced |
| `AtMostOnceTheorems.AnswersAreFinal` | rpc/rpc.cc:364-379 | A call is completed by a reply at most once: on every continuation of a run its recorded answer stays the same |
| `AtMostOnceTheorems.RequestsAcknowledgeOlderCalls` | rpc/rpc.cc:208-214 | Every request on the network carries an `xid_rep` below its own xid, `xid_rep` never falls as xids of one client grow, and a request is stamped once |
| `AtMostOnceTheorems.CoveredIffRecognises` | rpc/rpc.cc:670-690 | All accepted calls are in the reply list or at most at the bound, if and only if no redelivered request of an accepted call is classified NEW |
| `AtMostOnceTheorems.AcceptCoveredIff` | rpc/rpc.cc:691-713 | Accepting a request keeps all accepted calls covered if and only if its `xid_rep` does not lie below an accepted call that is at most at the old bound |
| `AtMostOnceTheorems.RecognisesIffNeverUncovers` | rpc/rpc.cc:659-715 | Throughout a run every redelivered request is recognised, if and only if no request is ever accepted that uncovers a forgotten call |
| `AtMostOnceTheorems.RecognisingRunsAcceptOnce` | rpc/rpc.cc:585-611 | In a run in which redelivered requests are recognised, no call is accepted, and so executed, twice |
| `AtMostOnceTheorems.InOrderIsMonotone` | rpc/rpc.cc:691-712 | If each client's requests are first accepted in xid order, the stored bound never decreases |
| `AtMostOnceTheorems.MonotoneRunsExecuteOnce` | rpc/rpc.cc:659-715 | In every run in which the stored bound never decreases, no request is executed twice even after its call returned, and every accepted xid is in the list or at most at the bound |
| `AtMostOnceTheorems.LateDuplicateRunsTwice` | rpc/rpc.cc:706-712 | A concrete run in which the bound falls from 1 back to 0 and a call that had been answered before is executed a second time |
| `AtMostOnceReplies.DispatchAnswers` | rpc/rpc.cc:578-640 | For any delivered request: a call at most at the bound is answered with -4, a finished call with its saved reply once more, a call being worked on with nothing, and any other becomes a job on its own arguments; nothing else changes |
| `AtMostOnceReplies.RedeliveryResends` | rpc/rpc.cc:631-633 | In every run, delivering the request of a waiting call once more puts its saved reply on the network |
| `AtMostOnceReplies.WaitingCallsCanComplete` | rpc/rpc.cc:498-643 | In every run, whatever was lost, a waiting call can still be completed by a reply without the client sending anything new |
| `AtMostOnceReplies.SendAnswers` | rpc/rpc.cc:601-623 | A worker sends exactly the reply that it saved |
| `AtMostOnceHistory.ArgumentsArrive` | rpc/rpc.cc:208-214 | In every run each request carries, and each job runs on, the arguments given to the step that started its call |
| `AtMostOnceHistory.AnswersMeetTheirArguments` | rpc/rpc.cc:586-623 | Whatever handlers promise of their arguments and results, the reply that completed a call keeps towards the arguments with which it was started |
| `AtMostOnceHistory.CallsStandAsTold` | rpc/rpc.cc:348-382 | In every run each call is waiting, answered, cancelled or gone exactly as the steps about that call say |
| `AtMostOnceHistory.XidRepIsAnsweredPrefix` | rpc/rpc.cc:208-214 | A new request has the next xid and its own arguments, and its `xid_rep` is the largest n such that each of the calls 1..n had been answered or had returned |
| `AtMostOnceHistory.NoCallsAfterCancel` | rpc/rpc.cc:163-206 | A client cancelled with calls outstanding never starts a call again |
| `AtMostOnceProofs.StepKeepsInv` | rpc/rpc.cc:188-323 | Every step of clients, server workers and network keeps the whole invariant (windows, stamps, reply tables, waiting calls, answers) |
| `AtMostOnceProofs.RunKeepsInv` | rpc/rpc.cc:498-643 | The invariant holds after every run |
| `XidWindow.UpdateRepresents` | rpc/rpc.cc:385-408 | Reporting an xid adds exactly that xid to the set the window stands for, and the front never falls |
| `XidWindow.FrontIsLargestPrefix` | rpc/rpc.cc:385-408 | The front is the largest n such that 1..n have all been reported |
| `XidWindow.AfterReportsRepresents` | rpc/rpc.cc:125-408 | After any sequence of reports, in any order and with repeats, the window is sorted, non-empty and a faithful summary of the plain set of reported xids |
| `XidWindow.CompressRepresents` | rpc/rpc.cc:402-407 | From any iterator position before which nothing continues the front, compression ends with the front at the largest closed prefix and loses no xid above it |
| `XidWindow.InsertKeepsOrder` | rpc/rpc.cc:394-400 | Insertion keeps the list sorted and adds exactly one value |
| `ReplyWindow.ClassifyReadsTable` | rpc/rpc.cc:670-690 | Each of the four answers holds exactly under its condition on the bound and the table of remembered calls |
| `ReplyWindow.AcceptTable` | rpc/rpc.cc:691-713 | After a NEW the list is strictly sorted and non-empty, and holds exactly the previous entries and the new one that exceed `xid_rep` |
| `ReplyWindow.AddReplyTable` | rpc/rpc.cc:722-738 | A reply is remembered exactly if its call is still in the table, and nothing else changes |
| `RpcEndpoints.RpcClient.constructor` | rpc/rpc.cc:101-129 | The window starts as the summary of no reports, xids start at 1 |
| `RpcEndpoints.RpcClient.UpdateXidRep` | rpc/rpc.cc:385-408 | The in-place insertion and compression keep the window a faithful summary of all reports and compute the step machine's report |
| `RpcEndpoints.RpcClient.InsertInto` | rpc/rpc.cc:394-400 | The insertion loop computes the sorted insertion |
| `RpcEndpoints.RpcClient.CompressWindow` | rpc/rpc.cc:402-407 | The compression loops terminate, never pop the element under the iterator, and compute the compression |
| `RpcEndpoints.RpcClient.StartCall` | rpc/rpc.cc:195-215 | Refused with -6 when unbound or bound twice and with -7 when cancelled, the client unchanged; otherwise the request stamped is that of the step machine, whose arguments `ArgumentsArrive` pins |
| `RpcEndpoints.RpcClient.GotPdu` | rpc/rpc.cc:360-381 | A reply is reported, and completes the call it names exactly if that call is still waiting |
| `RpcEndpoints.RpcClient.EndCall` | rpc/rpc.cc:286-322 | A returning call leaves the table and is reported; it returns its reply's status, -7 if cancelled, -1 if still unanswered |
| `RpcEndpoints.RpcClient.CancelCalls` | rpc/rpc.cc:163-186 | All outstanding calls fail, and new ones are refused while any is left |
| `RpcEndpoints.RpcServer.CheckDuplicateAndUpdate` | rpc/rpc.cc:659-715 | The loops compute the classification and the new window of this client, and leave other clients alone |
| `RpcEndpoints.RpcServer.ScanList` | rpc/rpc.cc:676-688 | The scan that never stops early gives the classification of the last match |
| `RpcEndpoints.RpcServer.InsertAndPrune` | rpc/rpc.cc:693-711 | Whenever some entry stays, the prune loop terminates on a non-empty list and computes the pruned insertion |
| `RpcEndpoints.RpcServer.SaveReply` | rpc/rpc.cc:722-738 | The reply is stored with the first entry of this xid, other clients are untouched |
| `LockTheorems.MutualExclusion` | lock_client_cache.cc:75-165 | In every reachable state at most one thread over all clients holds the lock, and a client possesses it (FREE, LOCKED, RELEASING, grant or release under way) if and only if it is the server's recorded owner |
| `LockTheorems.UncheckedWritesAreSafe` | lock_server_cache.cc:128-140 | Every release that reaches the server comes from the owner, every retry finds its client ACQUIRING, and nobody holds the lock at either moment |
| `LockTheorems.NoLostWaiter` | lock_server_cache.cc:78-140 | Every ACQUIRING client is listed exactly once or is the target of the retry, no sleeping thread missed a wake-up, and a waiting list on an unowned lock means that a retry is under way or a retried client has a thread that asks again |
| `LockTheorems.Coherence` | lock_client_cache.cc:138-156 | Whichever thread of whichever client holds the lock, `get` returns the content of the latest put made under the lock by any client, and `getattr` its size |
| `LockTheorems.LatestIsLastPut` | extent_client.cc:57-75 | The recorded latest content is the argument of the last put in the run |
| `LockTheorems.UnownedMeansStored` | lock_client_cache.h:31-34 | Whenever the lock has no owner, the server holds the latest put and no client has anything cached |
| `LockTheorems.GiveBackSafeIff` | lock_client_cache.cc:24-31 | The write of `give_back` leaves a lock that works and keeps working (one holder, exact owner, no release or retry that discards a held lock) if and only if it finds the lock FREE |
| `LockTheorems.StaleGiveBackFails` | lock_client_cache.cc:26-35 | From every reachable state in which `give_back` writes over anything but FREE, a few steps without a further give-back lead to a release under way although somebody holds the lock or the releasing client does not own it |
| `LockTheorems.WorksIffTimely` | lock_client_cache.cc:18-53 | Throughout a run the lock works and keeps working if and only if every write of `give_back` finds the lock FREE |
| `LockTheorems.StaleGiveBackBreaksExclusion` | lock_client_cache.cc:24-35 | A concrete run in which two threads hold the lock |
| `LockAnswers.ServerAnswers` | lock_server_cache.cc:57-120 | An unowned lock is granted, the first to wait for an owned one has a revoke made before its answer, any other is refused at once |
| `LockAnswers.FirstWaiterRevokes` | lock_server_cache.cc:83-117 | On every continuation, the asker that makes an owned lock's list non-empty gets its answer only after its revoke was sent and then handled |
| `LockAnswers.ReleaseObeysRevoke` | lock_client_cache.cc:126-165 | A RELEASING lock becomes NONE and its thread goes on to flush and return it; a LOCKED one becomes FREE and stays |
| `LockAnswers.RevokedLockGoesBack` | lock_client_cache.cc:138-156 | From a state in which a client must return the lock, on every timely continuation it is neither FREE nor LOCKED there before the server has it back |
| `LockAnswers.RevokeIsObeyed` | lock_client_cache.cc:167-200 | The same from every handled revoke on a LOCKED lock in every run |
| `LockAnswers.FirstComeFirstRetried` | lock_server_cache.cc:91-94 | In every run clients are retried in the order in which they joined the waiting list, once per joining |
| `LockAnswers.StepKeepsOrder` | lock_server_cache.cc:122-143 | A release leaves the lock unowned and sends a retry exactly if somebody waits |
| `LockProofs.StepKeepsInv` | lock_client_cache.cc:75-220 | Every step keeps exclusion, the waiting queues and the data invariant |
| `LockProofs.RunKeepsInv` | lock_server_cache.cc:57-143 | The invariant holds after every run whose give-backs are timely |
| `LockCaches.LockServerCache.Acquire` | lock_server_cache.cc:57-120 | The locked section behind `ServerAnswers`: grant, or one place in the list and a revoke exactly if the list was empty; other locks untouched |
| `LockCaches.LockServerCache.IsListed` | lock_server_cache.cc:86-90 | The list scan finds exactly the listed clients |
| `LockCaches.LockServerCache.Release` | lock_server_cache.cc:122-143 | The owner is cleared and the first waiter leaves the list for a retry |
| `LockCaches.LockClientCache.AcquireTurn` | lock_client_cache.cc:83-107 | One turn of the loop takes, asks or sleeps according to the status: the section that the step of the machine runs; other locks untouched |
| `LockCaches.LockClientCache.Release` | lock_client_cache.cc:131-163 | Unknown locks are refused; otherwise the section behind `ReleaseObeysRevoke`, and nobody stays asleep |
| `LockCaches.LockClientCache.RevokeHandler` | lock_client_cache.cc:167-200 | Only a LOCKED lock changes, to RELEASING |
| `LockCaches.LockClientCache.RetryHandler` | lock_client_cache.cc:202-220 | A known lock becomes NONE and its sleepers wake; an unknown one is an error |
| `LockCaches.LockClientCache.FindFree` | lock_client_cache.cc:24-26 | The scan finds a FREE lock if and only if there is one |
| `LockSections.StepsRunSections` | lock_client_cache.cc:75-220 | Every step of the machine, the server's answer and the write of `give_back` among them, changes what each client keeps for the lock (entry, status, condition variable, sleeping threads) exactly by the critical section that the class method computes there, and nothing at other clients |
| `LockSections.ThreadFollowsSection` | lock_client_cache.cc:88-163 | The thread that ran a section of `acquire` or `release` goes on as the section decided |
| `ManyLocks.EachLockRunsAlone` | lock_client_cache.cc:75-220 | In every run of any number of locks that share the client and server mutexes, the steps about one lock form a legal run of that lock alone, with the same end |
| `ManyLocks.EveryLockExcludes` | lock_server_cache.cc:57-143 | In every timely run over all locks, every lock has at most one holder and an exact owner, loses no waiter, and its unchecked writes are safe |
| `ManyLocks.EveryExtentIsCoherent` | lock_client_cache.cc:138-156 | And whoever holds a lock reads the latest put that any client made to its extent |
| `ManyLocks.MutexIsShared` | lock_client_cache.cc:81-117 | Over all locks, at most one thread of each client is in its acquire RPC |
| `Extents.CacheRefinesVariable` | extent_client.cc:22-104 | Any sequence of get, getattr, put and flush on cache and server observes exactly what it would on one plain variable with its access, modification and change times, and keeps cache and store consistent |
| `Extents.FlushRefines` | extent_client.cc:92-104 | Flush leaves nothing cached or dirty and makes the server equal to the view |
| `Extents.ExtentServer.constructor` | extent_server.cc:11-22 | Only extent 1 exists, empty, with matching attributes |
| `Extents.ExtentServer.Put` | extent_server.cc:25-56 | One extent changes, with size and times as specified |
| `Extents.ExtentServer.Get` | extent_server.cc:58-71 | Content and access time, or an error for a missing extent |
| `Extents.ExtentServer.GetAttr` | extent_server.cc:73-85 | The stored attributes, or an error |
| `Extents.ExtentClient.Get` | extent_client.cc:22-39 | The cached get on this extent; all others untouched at both ends |
| `Extents.ExtentClient.GetAttr` | extent_client.cc:41-55 | The cached getattr on this extent |
| `Extents.ExtentClient.Put` | extent_client.cc:57-75 | The cached put on this extent |
| `Extents.ExtentClient.Remove` | extent_client.cc:77-90 | Only cached entries go; dirty mark and server stay |
| `Extents.ExtentClient.Flush` | extent_client.cc:92-104 | The flush of this extent; all others untouched at both ends |
| `WireProofs.ArgsRoundTrip` | rpc/rpc.cc:790-987 | Every list of well-typed values of any nesting decodes to itself with `okdone()` true, and no strict prefix of its encoding is accepted |
| `WireProofs.EncodingIsInjective` | rpc/rpc.cc:790-859 | Different values of the same types never share an encoding |
| `WireProofs.CallIsTransparent` | rpc/rpc.h:143-160 | A typed call over the wire returns what the handler returns on the very same arguments |
| `WireProofs.TruncatedCallFails` | rpc/rpc.h:400-409 | A call whose arguments arrive incomplete returns -2 and no result, without reaching the handler |
| `WireProofs.DigitAt` | rpc/rpc.cc:827-836 | Every byte of an integer is its base-256 digit, most significant first |
| `WireProofs.FormatIs` | rpc/rpc.cc:790-859 | The bytes of each type: one for a bool, two's complement for signed integers, four bytes of count before strings, vectors and maps |
| `WireProofs.PutIsUpdate` | rpc/marshall.h:252-257 | Storing a decoded entry changes that key only and adds one exactly if it is new |
| `WireProofs.StringIsAllOrNothing` | rpc/rpc.cc:979-1000 | A string is read whole or not at all, and not when its count could not be read |
| `WireProofs.DecodeReads` | rpc/marshall.h:211-259 | Decoding an encoded value gives it back and stops right behind it, whatever follows |
| `WireProofs.DecodeExtends` | rpc/rpc.cc:900-1000 | A successful read of a shorter buffer is the read of every longer one |
| `Marshalling.Marshall.constructor` | rpc/marshall.h:53-58 | An empty body behind the header area |
| `Marshalling.Marshall.RawByte` | rpc/rpc.cc:765-775 | One byte is appended in bounds, the buffer doubling when full |
| `Marshalling.Marshall.RawBytes` | rpc/rpc.cc:777-788 | A block is appended in bounds, the buffer growing enough when needed |
| `Marshalling.Marshall.PutInt` | rpc/rpc.cc:797-859 | Integers of 1, 2, 4 and 8 bytes are appended big-endian |
| `Marshalling.Marshall.PutStr` | rpc/rpc.cc:845-851 | A string is appended behind its count |
| `Marshalling.Marshall.PutValue` | rpc/marshall.h:211-243 | A value of any type appends exactly its encoding |
| `Marshalling.Marshall.PutSeq` | rpc/marshall.h:211-218 | The vector loop appends the elements in order |
| `Marshalling.Marshall.PutPairs` | rpc/marshall.h:233-243 | The map loop appends the entries in order |
| `Marshalling.Marshall.PackReqHeader` | rpc/marshall.h:83-96 | The five fields go into the header area; position and body are unchanged |
| `Marshalling.Marshall.PackReplyHeader` | rpc/marshall.h:98-108 | The two fields go into the header area; position and body are unchanged |
| `Marshalling.Marshall.Pack` | rpc/rpc.cc:861-868 | The low 32 bits are written big-endian, behind the fields before |
| `Unmarshalling.ReqHeaderReads` | rpc/marshall.h:175-187 | Every packed request header unpacks to the same signed and unsigned fields |
| `Unmarshalling.ReplyHeaderReads` | rpc/marshall.h:189-198 | Every packed reply header unpacks to the same fields |
| `Unmarshalling.ReqLayout` | rpc/marshall.h:83-96 | Where the five header fields of a request lie, and in which byte order |
| `Unmarshalling.ReplyLayout` | rpc/marshall.h:98-108 | Where the two header fields of a reply lie |
| `Unmarshalling.Unmarshall.constructor` | rpc/marshall.h:136-136 | The whole buffer is to be read |
| `Unmarshalling.Unmarshall.TakeIn` | rpc/rpc.cc:879-888 | The body is to be read, or reading has failed if there is no header area |
| `Unmarshalling.Unmarshall.Done` | rpc/rpc.cc:890-898 | True exactly if everything was read and nothing was missing |
| `Unmarshalling.Unmarshall.RawByte` | rpc/rpc.cc:900-909 | One byte, sign-extended, or failure at the end |
| `Unmarshalling.Unmarshall.GetInt` | rpc/rpc.cc:918-977 | Integers are read as specified, eight bytes as two words |
| `Unmarshalling.Unmarshall.GetStr` | rpc/rpc.cc:979-1000 | A string is read only if its count could be and all its bytes are there |
| `Unmarshalling.Unmarshall.GetValue` | rpc/marshall.h:220-259 | A value of any type is read as the decoder specifies |
| `Unmarshalling.Unmarshall.GetSeq` | rpc/marshall.h:220-231 | The vector loop, which goes on after a failure |
| `Unmarshalling.Unmarshall.GetPairs` | rpc/marshall.h:245-259 | The map loop, in which a repeated key overwrites |
| `Unmarshalling.Unmarshall.UnpackReqHeader` | rpc/marshall.h:175-187 | The five fields, and failure for every buffer shorter than the header area |
| `Unmarshalling.Unmarshall.UnpackReplyHeader` | rpc/marshall.h:189-198 | The two fields |
| `Unmarshalling.PassRequest` | rpc/rpc.h:143-160 | A request built with its header before or after its arguments, then read back, gives the same header and the same arguments with `okdone()` true |
| `Unmarshalling.BuildRequest` | rpc/marshall.h:83-96 | The finished buffer is header area and encoded arguments, in either order of packing |
| `FramingTheorems.DeliveredIsPrefixOfBegun` | rpc/connection.cc:123-296 | For every schedule of senders, partial writes, partial reads, refusals and deaths, the accepted PDUs are byte for byte a prefix of the frames begun, and the stream is a prefix of their concatenation |
| `FramingTheorems.ConfirmedIsInStream` | rpc/connection.cc:123-167 | `send` returns true only if its whole frame is in the stream, right behind the earlier ones |
| `FramingTheorems.DrainedMeansDelivered` | rpc/connection.cc:193-220 | Once the stream is drained and nobody died, everything begun was delivered |
| `FramingTheorems.SizeFieldIsReal` | rpc/connection.cc:246-282 | A size field read by the receiver is the size of the next begun frame, never small and never negative |
| `FramingProgress.LiveSenderConfirms` | rpc/connection.cc:123-167 | In every run, while the sender lives, `send` has returned true for exactly the frames other than the one under way |
| `FramingProgress.SendReturnsTrueIff` | rpc/connection.cc:154-166 | `send` returns true if and only if the connection lives when its wait is over, and then its whole frame is in the stream |
| `FramingProgress.BeginWrites` | rpc/connection.cc:134-153 | The first write puts the first n bytes of the size-prefixed buffer into the stream and is fatal only on an error |
| `FramingProgress.WriteReadyWrites` | rpc/connection.cc:170-190 | A ready descriptor adds exactly as many bytes as `write` took, and only an error with bytes left is fatal |
| `FramingProgress.LiveReceiverDelivers` | rpc/connection.cc:193-220 | A live receiver keeps all fetched bytes until they make a whole PDU, which is delivered if accepted and kept if refused |
| `FramingProgress.ReceiverDiesIff` | rpc/connection.cc:246-296 | A receiver dies exactly of a missing, short, too small or more than 10 MB size field, or of an error in the rest |
| `FramingTheorems.RunKeepsInv` | rpc/connection.cc:123-296 | Sender, confirmation and receiver invariants hold after every run |
| `FramingSystem.FramesAreUnique` | rpc/connection.cc:222-296 | A stream splits into frames in one way only |
| `Connections.Connection.WritePdu` | rpc/connection.cc:222-244 | The size goes in front in place, partial writes advance, failure marks the PDU |
| `Connections.Connection.SendStart` | rpc/connection.cc:134-153 | The first half of `send` |
| `Connections.Connection.SendEnd` | rpc/connection.cc:154-166 | The second half of `send` and its result |
| `Connections.Connection.WriteCb` | rpc/connection.cc:170-190 | A ready descriptor continues the PDU, or does nothing without one |
| `Connections.Connection.ReadPdu` | rpc/connection.cc:246-296 | Size field and body from one or two reads into an allocated buffer |
| `Connections.Connection.ReadCb` | rpc/connection.cc:193-220 | Reading, death, delivery, and keeping a refused PDU |
| `PollTheorems.RemovalIsQuiescent` | rpc/pollmgr.cc:57-68 | For every interleaving of removers, adders, deleters and the poll thread, after a removal has returned no callback for the descriptor is running or will run before it is added again |
| `PollTheorems.ReturnMeansRemoved` | rpc/pollmgr.cc:60-68 | When a removal may return with no add since it began, the poll thread holds nothing of the descriptor, and the return makes it quiet |
| `PollTheorems.ReturnIsSafeIff` | rpc/pollmgr.cc:66-117 | In any state, also after early wake-ups, a returning removal silences the descriptor for good if and only if the poll thread is neither inside a callback for it nor between the test of its entry and the call |
| `PollTheorems.EarlyWakeReturnsDuringCallback` | rpc/pollmgr.cc:66-66 | A concrete run in which one early wake-up makes a removal return during a callback |
| `PollTheorems.EarlyWakeReturnsBeforeCallback` | rpc/pollmgr.cc:114-124 | A concrete run in which it returns between the test and the call, which then goes through an entry that is gone |
| `PollTheorems.StepKeepsInv` | rpc/pollmgr.cc:89-126 | Every step other than an early wake-up keeps the invariant of waiting removers and removed descriptors |
| `PollDispatch.SelectsWhatIsWatched` | rpc/pollmgr.cc:149-229 | In every run a descriptor is selected for reading, or for writing, exactly if the last step about that kind of watch turned it on |
| `PollDispatch.DelKeepsCallbackIff` | rpc/pollmgr.cc:70-77 | A delete keeps the callback exactly if the other kind of watch is still on |
| `PollDispatch.ReadingSurvivesWriting` | rpc/connection.cc:155-178 | A write watch added to a read watch and dropped again leaves the callback and the read watch |
| `PollDispatch.TopWakesAll` | rpc/pollmgr.cc:97-103 | The top of the loop wakes every waiting remover and settles the pending change |
| `PollDispatch.VisitsInOrder` | rpc/pollmgr.cc:114-124 | For every interleaving, the ready descriptors of a turn are visited in the order reported, reads before writes, none twice and none skipped |
| `PollDispatch.TurnVisitsAll` | rpc/pollmgr.cc:104-125 | A turn that ends has visited every ready descriptor |
| `PollDispatch.TurnStep` | rpc/pollmgr.cc:114-124 | A visited descriptor is called exactly if it has a callback when tested |
| `Polling.SelectAio.WatchFd` | rpc/pollmgr.cc:149-167 | Reading, writing or both are watched in addition, as the flag says and no more, and `highfds_` stays the maximum |
| `Polling.SelectAio.UnwatchFd` | rpc/pollmgr.cc:182-215 | Reading, writing or both are no longer watched, as the flag says and no more, `highfds_` stays the maximum, the result says whether nothing is watched |
| `Polling.SelectAio.Highest` | rpc/pollmgr.cc:199-206 | The scan finds the largest watched descriptor |
| `Polling.SelectAio.WaitReady` | rpc/pollmgr.cc:231-257 | Exactly what `select` left of the copied sets is reported, ascending and without the pipe, whatever was watched or unwatched meanwhile |
| `Polling.SelectAio.CopySets` | rpc/pollmgr.cc:223-229 | The copied bound covers the copied sets |
| `Polling.PollMgr.AddCallback` | rpc/pollmgr.cc:45-55 | The descriptor is watched and has its callback |
| `Polling.PollMgr.DelCallback` | rpc/pollmgr.cc:70-77 | The callback goes exactly if nothing is watched any more |
| `Polling.PollMgr.BlockRemoveStart` | rpc/pollmgr.cc:63-66 | The descriptor is unwatched and the thread waits with a change pending: the section that the step of the poll system runs |
| `Polling.PollMgr.BlockRemoveEnd` | rpc/pollmgr.cc:66-68 | A woken removal leaves its descriptor without callback and other removals as they were; every remover still waiting has a change pending |
| `Polling.PollMgr.LoopTop` | rpc/pollmgr.cc:97-103 | No remover that came before is left waiting, because every waiting remover has a change pending |
| `ThrPoolTheorems.ShutdownIsComplete` | rpc/thr_pool.cc:38-51 | When all workers have exited, every accepted job was started exactly once, in order, and has ended, the queue is empty, and every worker took one pill |
| `ThrPoolTheorems.EmptyQueueMeansExited` | rpc/thr_pool.cc:38-51 | Once all pills are out and the queue is empty, every worker has exited |
| `ThrPoolTheorems.OrderAndBound` | rpc/fifo.h:56-92 | In every run the queue keeps to its capacity and jobs start in the order of acceptance |
| `ThrPoolTheorems.CompleteIffWorkers` | rpc/thr_pool.cc:23-34 | Shutdown is complete in every run if and only if the pool has at least one worker |
| `ThrPoolTheorems.ShutdownCanFinish` | rpc/thr_pool.cc:7-51 | A destructor that has begun is never stuck: from every state its workers can finish the jobs and exit |
| `ThrPoolTheorems.AddAcceptsIff` | rpc/thr_pool.cc:53-61 | A job is refused exactly if 100 entries per worker are queued |
| `ThrPoolTheorems.TakeServesNext` | rpc/thr_pool.cc:7-19 | An idle worker starts the oldest accepted job that was not started, and exits when there is none |
| `ThrPoolTheorems.PillsGoOut` | rpc/thr_pool.cc:38-45 | The next pill can go out whenever the queue is empty |
| `ThrPoolTheorems.EndFrees` | rpc/thr_pool.cc:16-16 | A worker whose job has ended is idle again |
| `ThrPoolTheorems.RunKeepsInv` | rpc/thr_pool.cc:7-68 | Queue, order and busy-worker invariants hold after every run |
| `ThrPool.Fifo.EnqTurn` | rpc/fifo.h:56-72 | An entry is appended exactly if there is room |
| `ThrPool.Fifo.DeqTurn` | rpc/fifo.h:74-92 | The oldest entry is taken exactly if there is one |
| `Timers.WaitRounds` | rpc/rpc.cc:217-284 | Each wait lasts for its doubled timeout or is cut off at start plus timeout, waiting ends with the first reply, and only a wait up to the very end gives up |
| `Timers.RoundsBound` | rpc/rpc.cc:227-284 | The number W of waits satisfies 1000 * (2^(W-1) - 1) <= timeout in milliseconds |
| `Timers.NoneAfterEnd` | rpc/rpc.cc:255-260 | No wait deadline lies after start plus timeout |
| `Timers.DefaultRounds` | rpc/rpc.cc:77-78 | With the default timeout there are at most seven waits |
| `Timers.Deadline` | rpc/rpc.cc:255-260 | The next deadline is the earlier of the doubled timeout and the final one |
| `Timers.AddTimespec` | rpc/rpc.cc:1067-1078 | The sum is exact, also where the nanoseconds come out as a full second |
| `Timers.CmpAgrees` | rpc/rpc.cc:1050-1065 | The comparison never contradicts the strict order of instants |
| `Timers.CmpZeroIff` | rpc/rpc.cc:1050-1065 | Two names of one instant compare equal exactly if both or neither are normal |

## Left out

- The file system itself (`yfs_client.cc` is not part of this model) and its FUSE front end: foreign calls and user interface.
- Restarted servers, `bind` and the reply to an old server instance (rpc/rpc.cc:522-531): one server incarnation is modelled.
- Clients with nonce 0, which ask for no at-most-once service (rpc/rpc.cc:580-583), and two clients that draw the same nonce: nonces are distinct and non-zero.
- Wrap-around of xids: at most 2^32 - 1 calls per client.
- `rpcs::dispatch` on malformed headers, unknown procedures and handlers that fail its assertions: the process gives up there.
- Memory release. The reference at rpc/rpc.cc:706-711 is read as the current front of the list, as its loop intends; the buffers it frees, and connection reference counts, are not modelled.
- RpcEndpoints.RpcServer.CheckDuplicateAndUpdate: a new request asks that some entry exceed its `xid_rep`, without which the source's prune loop runs off the list; the new entry itself does for every request on the network (`RequestsAcknowledgeOlderCalls`).
- RpcEndpoints.RpcClient.CancelCalls: ends at the first wait; the wait for the outstanding calls to return is the order of steps in the machine.
- Failure branches of the lock code (lock_server_cache.cc:107-112, lock_client_cache.cc:36-39, 147-151): RPCs between lock clients and lock server succeed.
- Liveness and deadlock freedom of the lock protocol: RPCs made while a mutex is held can block each other until they time out.
- Data races on the maps of an extent client: operations on different extents of one client are taken to be atomic.
- Extents.ExtentClient.Remove: modelled as the cache eviction it is, not as the deletion of a file, because it leaves the dirty mark and never tells the server.
- Unmarshalling.Unmarshall.GetStr: a string count so large that adding it to the position wraps around 2^32 counts as a failed read.
- The order of a `std::map`: its entries are a sequence in iteration order with distinct keys.
- Marshalling.Marshall.PutValue: total sizes stay below 2^30, so that capacities do not overflow an `int`; checksumming is not compiled in.
- Connections.Connection.ReadPdu: size fields up to 4 or from 2^31 on, which the source does not guard against, and a size field that would block, which it asserts not to happen, end the connection in the model; `SizeFieldIsReal` shows that they never reach a receiver.
- `write_cb` on a connection that has just died (rpc/connection.cc:174 asserts that it has not): the step is taken only on live connections.
- Connections.Connection.SendStart: the lossy test mode, accepting and connecting, and the wait loops, which are the enabling conditions of steps.
- A poll thread that removes a descriptor itself: it would wait for its own next turn, so such a removal never returns.
- `EPollAIO`, `lock_server.cc`, `lock_client.cc` and the `wake_up` thread: not instantiated, registered or started.
- `handle.cc`, `has_callback`, `is_watched`, logging, address resolution, statistics: no property here depends on them.
- ThrPool.Fifo.EnqTurn: one turn of the wait loop; blocking is the order of steps in the pool.
- Timers.WaitRounds: waits that end early without a reply, and a clock that runs backwards, are excluded; overflow of the doubled timeout for timeouts near 2^31 milliseconds is not modelled.
