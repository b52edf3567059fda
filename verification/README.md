# Rask in Dafny

Rask is a small HTTP server in C. This project models the four parts of it that carry state and whose
correctness is not obvious from one function body, and proves properties of them for all inputs and all runs.
`dafny verify dfyconfig.toml` checks everything.

**The thread pool** (`src/thread_pool.c`). `PoolProtocol` is a transition system over the workers, the watcher and the
main thread (`thread_pool_ini`, then `_thread_pool_destroy`), interleaving in any order: one program point per thread,
two mutexes with owners, the counter's increment and decrement split into a read and a write, a pending and a blocked
bit for SIGURG, `client_fd` and the descriptor table. `PoolSafety` proves its invariant, `PoolTheorems`, `PoolHistory`,
`PoolShutdown` and `PoolWitnesses` what it means for runs: every theorem is about each state of each run from
`thread_pool_ini` on, for any configured size. `PoolSizing` holds the sizing arithmetic over `real` and the behaviour of
repeated passes; `ThreadPool` is the code of the pool, loop by loop, over an array; `PoolRefinement` shows that sizes in
the interleaved system are exactly those of successive whole passes.

**Buffers and responses** (`srclib/dynamic_buffer/dynamic_buffer.c`, `src/response.c`). `DynamicBuffer` is the growable
array as a class refining a character sequence, `Decimal` the numerals of printf, `Streams` the pipes, files and
sockets. `Responses` builds each response in a buffer, `Framing` is a client that cuts a stream into messages by the
first CR LF CR LF and Content-Length (section 3.3.3 of RFC 7230), `ResponseFraming` connects the two, `FileLoop` decides
when the file loop ends, `ETags` when two tags agree.

**Requests** (`src/request.c`, `srclib/string/string.c`, `src/connection_handler.c`). `Requests` reads from a client
that delivers bytes in any cuts, with interruptions, a timeout, an error or a close; `Targets` goes from the target to
the file. `Arrivals` says what the cuts mean for a request, `Connections` is one call of the handler, `Answers` what
each kind of request gets from it, `Service` a whole connection.

**Scripts** (`srclib/execute_scripts/execute_scripts.c`). `Scripts` is one run of a script, and many at once over one
table of children, in which `wait` reaps any of them; `Inheritance` is the pipe ends the children inherit.

Where the code does less than one would expect of it, the model keeps the code and the theorem says exactly how far it
goes: soft destruction may never finish (`SoftDestroyOutcome`, `SoftDestroyCanHang`), a stale `client_fd` may close
another worker's connection and two workers may end up with one client (`ForeignCloseIff`, `ServesForeignIff`,
`StaleDescriptorIsServed`), a SIGKILL may reach another worker's script (`KillHitsForeignIff`, `KillCanHitForeign`), two
scripts may keep each other's input open for ever (`DeadlockHappens`, `DeadlockIsForEver`), a POST for a name without a
dot kills the server (`CrashIff`, `ScriptsDirectoryIsFatal`), a request that shares a read with the one before is lost
(`NothingLostIff`, `PipelinedRequestIsLost`), one that is split may be refused (`CutRequest`, `SplitRequestIsRejected`),
a 304 makes the rest of the stream unreadable (`ReadsBackIffNo304`), the file loop may spin (`LoopEndsIff`,
`FailedStatSpins`), long paths share a tag (`EtagsAgreeIff`), a numeral of twenty digits loses its last one
(`AppendNumber`), draining into a full buffer reads nothing (`AppendFd`), a target without a leading slash may leave the
base directory (`TargetsInsideIff`, `RenamingTarget`, `LeavingTarget`). The comment at `src/thread_pool.c:137-139` says
that the cleanup handler ensures the connection is closed; it does, but may close a second one.

## Model

| member | source | states |
|---|---|---|
| PoolSafety.RunsAreSafe | src/thread_pool.c:129-303 | every state of every run satisfies the whole invariant: mutex owners, mask, counter, sizes, slots, standing of every thread, connections, service |
| PoolSafety.InvStep | src/thread_pool.c:129-303 | any enabled step of a worker, the watcher or the main thread, in any order, keeps that invariant |
| PoolSafety.CounterWorker | src/thread_pool.c:165-183 | with increment and decrement split into read and write, a value read under the lock is still current when written back |
| PoolTheorems.ActiveCountIsExact | src/thread_pool.c:165-183 | n_active_threads is always exactly the number of workers between their locked increment and decrement, so it is never negative and loses no update, whatever soft kills happen |
| PoolTheorems.SlotsHoldLiveWorkers | src/thread_pool.c:198-243 | until destruction, 100 <= n_spawned <= max and the slots in use name pairwise distinct, live, never-signalled threads; every other thread has been signalled exactly once and its SIGURG is pending |
| PoolTheorems.MaskedConnectionsAreServed | src/thread_pool.c:156-179 | with soft kills only, a connection for which SIGURG was blocked is either finished by its handler or still in service at its own worker |
| PoolTheorems.NoExitWhileMasked | src/thread_pool.c:156-190 | with soft kills only, the step that ends a thread is taken outside the masked region or is the unblocking itself |
| PoolTheorems.LeftConnectionsAreClosed | src/thread_pool.c:118-123 | an accepted connection its worker no longer holds, in particular one whose worker has exited, has been closed |
| PoolTheorems.RetiredWorkersAcceptAtMostOnce | src/thread_pool.c:235-241 | after being told to stop a worker accepts at most one more connection; a signalled one none if it was masked when signalled, and it never waits in accept after that one |
| PoolTheorems.PromptlyRetiredAcceptNothing | src/thread_pool.c:235-241 | if a deliverable signal, or a cancellation in accept, acts before its thread does anything else, no worker told to stop ever accepts again |
| PoolTheorems.NoThreadHoldsBoth | src/thread_pool.c:256-268 | no thread owns both mutexes at once, no exited thread owns one, and no worker ever owns watcher_mutex |
| PoolTheorems.OwnersNeverWait | src/thread_pool.c:165-183 | the owner of either mutex has its next step towards the unlock enabled right now |
| PoolTheorems.NoCircularWait | src/thread_pool.c:256-268 | in every state of every run no owner of a mutex waits for one; a worker or watcher that owns one has its own next step towards the release enabled; the destroyer, once it owns watcher_mutex, can be stopped only in a join, by a thread in that slot that has not exited |
| PoolHistory.CountsAreHistory | src/thread_pool.c:235-301 | in every run the recorded signals, joins and late accepts of a thread are the numbers of kill or cancel, join and accept steps of that run that name it |
| PoolHistory.ToldThreadsAcceptAtMostOnce | src/thread_pool.c:150-190 | counted in the steps of a run: once told to stop a thread accepts at most once more, and never if it then has SIGURG blocked and pending |
| PoolHistory.FlagsAreHistory | src/thread_pool.c:150-190 | a connection is on record as masked, finished or closed if and only if a step of the run blocked SIGURG for it, ended its handler loop, or closed the number it had just then |
| PoolHistory.BlockedMeansServed | src/thread_pool.c:156-179 | in the steps of a run with soft kills only: a worker that has blocked SIGURG for a connection serves it until it ends the handler loop |
| PoolHistory.FailedAcceptLeavesNothing | src/thread_pool.c:151-154 | after a failed accept the cleanup handler closes nothing, whichever way the thread ends |
| PoolHistory.DestroyKindWasAskedFor | src/thread_pool.c:277-311 | a destruction under way is of the kind some earlier step of the run asked for |
| PoolHistory.SlotCount | src/thread_pool.c:33-68 | in every state of every run there are as many slots as configured connections, and at least 100 |
| PoolHistory.WorkersMove | src/thread_pool.c:129-192 | a live worker has a step to take unless it waits for shared_mutex while somebody else has it |
| PoolHistory.WatcherMoves | src/thread_pool.c:249-270 | the watcher has a step to take unless it waits for a mutex that somebody else has |
| PoolHistory.ClientsDecide | src/thread_pool.c:150-177 | a worker in accept may get any free number or none, and one that serves may get another request or not |
| PoolHistory.OwnerDecides | src/thread_pool.c:305-311 | while the pool runs, a destruction of either kind may begin |
| PoolHistory.WatcherIsCancelled | src/thread_pool.c:280-292 | the watcher has been cancelled if and only if the destroyer is past that call, and ends only then |
| PoolShutdown.FrozenAfterLock | src/thread_pool.c:280-282 | once the destroyer owns watcher_mutex, n_spawned_threads and the slots never change again |
| PoolShutdown.EveryoneDismissedOnce | src/thread_pool.c:284-302 | at the free, every thread in a slot has been signalled once, joined once and has exited; every other thread was signalled once, never joined, and if it survives accepts at most once more |
| PoolShutdown.RankDecreases | src/thread_pool.c:284-296 | while the destroyer joins and every thread has its signal or cancellation, every step but another request on a served connection and a failed accept lowers a rank, and those two leave it unchanged |
| PoolShutdown.DestroyerIsNeverStuck | src/thread_pool.c:284-296 | in that situation a step is enabled that involves no client (no accept, no further request, no end of one), for a soft destruction provided the very thread to be joined next is not serving |
| PoolShutdown.ArmedMeansAllTold | src/thread_pool.c:284-292 | at the joins every thread has its signal or cancellation: always in a hard destruction, in a soft one if some thread had installed the handler by the destroyer's first signal |
| PoolShutdown.DestroyFinishes | src/thread_pool.c:284-302 | an execution from there has at most Rank productive steps, and once no step is left but those of clients the pool has been freed if and only if it is not a soft destroyer about to join a thread that is serving |
| PoolShutdown.ToldOrLost | src/thread_pool.c:288-296 | while the soft destroyer joins, all signals have arrived if and only if no unjoined thread missed its own, and if and only if the first one arrived |
| PoolShutdown.FirstSignal | src/thread_pool.c:288-292 | every destruction past its signals sent a first one, to slot 0, of the same kind, and what was installed at that step is what `armed` says ever after |
| PoolShutdown.SoftDestroyOutcome | src/thread_pool.c:277-303 | every run that reaches the joins of a soft destruction had a first signal, and that decides: a signal is lost if and only if no thread had installed the handler by then, and the pool is then never freed; otherwise the productive steps left are bounded, and once only clients can move the pool has been freed if and only if the thread to be joined next is not serving |
| PoolShutdown.HardDestroyOutcome | src/thread_pool.c:277-303 | every run that reaches the joins of a hard destruction has a bounded number of productive steps left, and once only clients can move it has freed the pool, even while connections are being served |
| PoolShutdown.LostSignalHangs | src/thread_pool.c:294-296 | from a state with a lost signal no execution ever frees the pool |
| PoolWitnesses.SoftDestroyCanHang | src/thread_pool.c:141-148 | a concrete run in which soft destruction begins before any worker has run sigaction, its signals are discarded and thread 0 is awaited for ever |
| PoolWitnesses.ForeignCloseIff | src/thread_pool.c:118-123 | a close of a worker hits another worker's connection exactly when its number is open although it holds no connection, or one already closed under it |
| PoolWitnesses.StaleDescriptorIsClosed | src/thread_pool.c:179-190 | a concrete run in which an exiting worker, whose client_fd was not reset, closes the connection another worker is serving |
| PoolWitnesses.ServesForeignIff | src/thread_pool.c:175-179 | a worker is serving somebody else's connection if and only if its own has been closed under it and the number given out again |
| PoolWitnesses.StaleDescriptorIsServed | src/thread_pool.c:175-190 | a run, one accept longer, in which two workers serve the same client |
| PoolSizing.SizingInIntegers | src/thread_pool.c:198-265 | the floating-point goals and tests equal (3n+1)/2, (3n+3)/4, 4e > 3n and 4e < n for every n and e |
| PoolSizing.GrowGoalFitsInt | src/thread_pool.c:200 | the uncapped growth goal fits a 32-bit int if and only if n <= 1431655764 |
| PoolSizing.PassSizeInIntegers | src/thread_pool.c:198-266 | one pass: up to min((3n+1)/2, max) as far as creations succeed if 4e > 3n, down to (3n+3)/4 if 4e < n and n > 132, and otherwise no change |
| PoolSizing.SizeAfter | src/thread_pool.c:198-270 | after any number of passes over any samples, with any creation failures, the size is still between 100 and max |
| PoolSizing.DirectionIsStable | src/thread_pool.c:262-266 | at a constant load a growing pass is never followed by a wish to shrink, nor the other way round |
| PoolSizing.SizesAreMonotone | src/thread_pool.c:262-266 | at a constant load the sequence of sizes is monotone |
| PoolSizing.SettledIffFixed | src/thread_pool.c:202-233 | a pass changes nothing if and only if n <= 4e <= 3n, or 4e > 3n with n = max, or 4e < n with n <= 132 |
| PoolSizing.ReachesFixedPoint | src/thread_pool.c:253-269 | at a constant load the size is settled after at most max passes and never changes again |
| PoolSizing.SteadyPasses | src/thread_pool.c:253-269 | the sequence of sizes under a constant load is the one the watcher's whole passes over that sample give when no creation fails |
| PoolSizing.PassesSettle | src/thread_pool.c:253-269 | after max such passes the size is settled, and further ones change nothing |
| PoolSizing.GrowthIsGeometric | src/thread_pool.c:200-219 | after k growing passes 2^k * n_k >= 3^k * n_0 unless the maximum is reached |
| PoolSizing.ShrinkIsGeometric | src/thread_pool.c:229-241 | after k shrinking passes 4^k * (n_k - 3) <= 3^k * (n_0 - 3) |
| PoolRefinement.SizesComeFromPasses | src/thread_pool.c:249-270 | in every run, under any interleaving, n_spawned is the size its passes give: each pass is whole, its load is the number of workers between increment and decrement at the watcher's last sample, its outcomes are those of its pthread_create steps; a loop under way has the goal its load calls for |
| PoolRefinement.SampleIsLoad | src/thread_pool.c:256-262 | what the watcher acts on is n_active_threads at its last sample, the number of workers between increment and decrement just then |
| PoolRefinement.PassInProtocol | src/thread_pool.c:260-268 | conversely, for every outcome of the thread creations the watcher can go from its decision to the unlock with exactly the size of that pass |
| PoolRefinement.ConstantLoadRuns | src/thread_pool.c:249-270 | in every interleaved run whose passes all find the same load and in which no creation fails, n_spawned is the size after that many passes, and from the max-th on it is settled |
| ThreadPool.Pool.GrowPool | src/thread_pool.c:198-221 | n_spawned becomes min((3n+1)/2, max), or stops at the first failed creation; the array keeps its old prefix, then holds the new threads in order, then is unchanged |
| ThreadPool.Pool.SpawnUpTo | src/thread_pool.c:211-219 | the creation loop stops at the first failed pthread_create, with n_spawned the number of threads that exist |
| ThreadPool.Pool.ShrinkPool | src/thread_pool.c:227-243 | n_spawned becomes (3n+3)/4 if n > 132; exactly the threads above it are signalled, once each, from the last downwards |
| ThreadPool.Pool.WatcherPass | src/thread_pool.c:256-268 | one pass over any sample: the new size in integers, exactly the difference added or signalled, and no other slot touched |
| ThreadPool.Pool.Destroy | src/thread_pool.c:277-303 | the watcher is cancelled and not joined; each thread in a slot is cancelled (hard) or signalled (soft) once and joined once, in slot order, and no other; the socket is closed once |
| ThreadPool.ThreadPoolIni | src/thread_pool.c:30-103 | a pool exists if and only if a connection is allowed, every allocation and mutex succeeds and so do all 101 creations; otherwise the socket has been closed once, the threads already created have been cancelled and joined, and from the allocation of the slots on a thread named by uninitialised memory has been cancelled too |
| ThreadPool.StartThreads | src/thread_pool.c:85-93 | the first threads go into the slots in order up to the first failed creation, and n_spawned is their number |
| DynamicBuffer.DynamicBufferIni | srclib/dynamic_buffer/dynamic_buffer.c:15-39 | no buffer if and only if there is no memory; otherwise an empty one of the wanted capacity, or 4096 for a non-positive one |
| DynamicBuffer.Buffer.GrowBuffer | srclib/dynamic_buffer/dynamic_buffer.c:41-56 | growth keeps the contents, and afterwards the data fits unless realloc failed |
| DynamicBuffer.Buffer.Append | srclib/dynamic_buffer/dynamic_buffer.c:58-74 | all or nothing: the contents gain the data, or nothing changes and then it did not fit and realloc failed |
| DynamicBuffer.Buffer.AppendString | srclib/dynamic_buffer/dynamic_buffer.c:76-78 | the same for a string |
| DynamicBuffer.Buffer.AppendNumber | srclib/dynamic_buffer/dynamic_buffer.c:80-94 | below 10^19 the whole decimal numeral; from 10^19 to 2^64-1 its first 19 digits and a NUL in place of the last |
| DynamicBuffer.NumeralLength | srclib/dynamic_buffer/dynamic_buffer.c:88-90 | a 64-bit number has at most 20 digits, and with its NUL fits 20 bytes if and only if it is below 10^19 |
| DynamicBuffer.Buffer.AppendFile | srclib/dynamic_buffer/dynamic_buffer.c:96-113 | what arrives is a prefix of the file as long as asked for or as there is, or nothing when it could not fit |
| DynamicBuffer.Buffer.ReadOnce | srclib/dynamic_buffer/dynamic_buffer.c:120-127 | a zero read happens if and only if the buffer was full on entry or the stream is over; if realloc does not fail the buffer is not full afterwards |
| DynamicBuffer.Buffer.AppendFd | srclib/dynamic_buffer/dynamic_buffer.c:115-131 | terminates for every way the stream is cut; always the old contents and a prefix of the stream; if realloc never fails the whole stream if and only if the buffer was not full on entry or the stream is empty |
| DynamicBuffer.Buffer.AppendFileChunked | srclib/dynamic_buffer/dynamic_buffer.c:133-147 | fills the free space from the file and no more, and never changes the capacity |
| DynamicBuffer.Buffer.Clear | srclib/dynamic_buffer/dynamic_buffer.c:157-161 | empties the contents and changes nothing else, so the capacity stays |
| Decimal.DigitsRoundTrip | srclib/dynamic_buffer/dynamic_buffer.c:90 | the numeral of every number parses back to it |
| Decimal.DigitsCanonical | srclib/dynamic_buffer/dynamic_buffer.c:90 | every digit string without a leading zero is the numeral of its value |
| Decimal.DigitsLength | srclib/dynamic_buffer/dynamic_buffer.c:88-90 | a numeral has at most k digits if and only if the number is below 10^k |
| Decimal.NoLeadingZero | srclib/dynamic_buffer/dynamic_buffer.c:90 | a numeral starts with 0 only for zero |
| Strings.StringAreEqual | srclib/string/string.c:4-16 | true if and only if the two slices hold the same characters |
| Strings.StringIsEqualTo | srclib/string/string.c:18-33 | true if and only if the slice is exactly the string up to the NUL, without reading past that NUL |
| Requests.ReadThroughTakes | src/request.c:69-81 | however many signals come between, a read brings the next bytes of the stream in order and loses none, or tells the way the stream really ended |
| Requests.Client.ReadUninterrupted | src/request.c:69-71 | the loop over EINTR ends, returns what ReadThrough says and leaves exactly the events it leaves |
| Requests.Request.ReadLoop | src/request.c:65-107 | terminates, for any parser, which is offered num_headers as the attempt before left it; result, last verdict, buffer and the events left unread are those of LoopOf; the buffer never exceeds 8192 bytes and no read asks for none |
| Requests.LoopTakes | src/request.c:65-107 | whatever the parser says, what is buffered and what is left unread make up the stream; if no request arrived all of it is buffered and the result tells how it ended |
| Requests.Request.Process | src/request.c:58-121 | the result is CodeOf of the events; on success method, headers, path and query are those of the parsed request, the target has no two dots in a row, and the body is an end part of what has been read |
| Arrivals.SteadyLoop | src/request.c:65-107 | for a parser whose verdict depends on the bytes alone, result and verdict are those read off the whole stream at once |
| Arrivals.VerdictIgnoresCuts | src/request.c:65-107 | for such a parser two ways of cutting the same bytes into reads, with any interruptions, give the same result |
| Arrivals.TooLongIff | src/request.c:103-106 | a stream such a parser never decides is too long if and only if it has at least 8192 bytes |
| Arrivals.FirstAttempt | src/request.c:65-97 | the first attempt is offered room for 32 headers, and what it decides is the verdict |
| Arrivals.CutRequest | src/request.c:66-97 | for a parser that minds the room for headers, a request cut into reads is understood if and only if, when its last read is judged, num_headers still has room for all its headers; otherwise it is answered with a 400 |
| Arrivals.OneReadIsEnough | src/request.c:66-97 | every request that arrives in one read is understood |
| Arrivals.SplitRequestIsRejected | src/request.c:66-97 | a concrete request that gets through in one read and a 400 in two |
| Arrivals.NothingLostIff | src/request.c:65-84 | what a request leaves on the connection is the stream from its end on if and only if a read (or the buffer) ends there; otherwise the rest of that read is lost |
| Arrivals.LoopIsLocal | src/request.c:65-107 | events after the ones that decide a request neither change the result nor are touched |
| Arrivals.AlignedReadsBringOne | src/request.c:65-107 | reads of which one ends where a request does bring that request and nothing more, for a parser that judges the bytes alone |
| Arrivals.RoomyReadsBringOne | src/request.c:66-97 | the same for one that minds the room for headers, if and only if there is enough of it |
| Arrivals.CutKeepsBytes | src/request.c:69-71 | cutting a stream and interrupting it changes neither its bytes nor its ending |
| Requests.Request.IsRequestValid | src/request.c:16-24 | valid if and only if no two dots stand in a row anywhere in the target |
| Targets.DotDotIsPart | src/request.c:16-24 | that is, if and only if ".." is not a part of it |
| Requests.Request.ParseUrlArgs | src/request.c:30-42 | the old target is the path, or path + "?" + query, and the path has no "?" in it |
| Targets.PathOfQuery | src/request.c:30-42 | splitting undoes joining: the path of path + "?" + args is path |
| Requests.Request.GetHeader | src/request.c:124-137 | the value FirstHeader finds |
| Requests.FirstHeaderIsFirst | src/request.c:124-137 | a value is found if and only if some header has exactly that name, and then it is that of the first one |
| Targets.GetFilename | src/response.c:109-130 | base_path followed by default_path for exactly "/", and by the path for every other, within the memory allocated |
| Targets.FindExtension | src/response.c:138-149 | the loop finds the extension of the name |
| Targets.ExtensionIsFromLastDot | src/response.c:132-137 | there is an extension if and only if there is a dot, and it is the end of the name from the last one on |
| Targets.SplitConcat | src/response.c:125-127 | the components of a concatenation are those of its parts with the two at the seam joined |
| Targets.SplitRoundTrip | src/response.c:125-127 | the components have no slashes, and with slashes between them make up the name |
| Targets.ServedFilesStayInside | src/request.c:16-42 | validate, split, prefix: for every origin-form target (section 5.3.1 of RFC 7230) without two dots in a row, the component-wise resolution of the file name of its path extends that of base_path, whatever base_path is |
| Targets.InsideIff | src/response.c:125-127 | for any base and any tail without two dots in a row, base + tail resolves at or below base if and only if what the last component of base and the first of tail make of each other leaves base (StaysInside) |
| Targets.TargetsInsideIff | src/request.c:16-42 | the same for the file of any accepted target, of whatever form, under any base_path |
| Targets.RenamingTarget | src/request.c:16-24 | an accepted target that resolves outside: "2" under /www |
| Targets.LeavingTarget | src/request.c:16-24 | another: "." under /www/. |
| Requests.AcceptedRequestsStayInside | src/request.c:107-121 | both statements for every request that request_process accepts, for any parser and any arrival |
| ETags.EtagsAgreeIff | src/response.c:344 | two tags agree if and only if time and path agree or both are so long that truncation hides the difference |
| ETags.EtagIdentifies | src/response.c:341-349 | untruncated tags agree if and only if time and path agree |
| ETags.LongPathsShareEtag | src/response.c:344 | two different paths of 100 characters with the same tag |
| Decimal.SignedPrefixInjective | src/response.c:344 | a signed numeral followed by a text that starts with neither digit nor sign determines both |
| Connections.IsEtag | src/response.c:344-346 | the comparison succeeds if and only if the value is exactly the tag snprintf left |
| Answers.IssuedTagRevalidates | src/response.c:341-349 | a client that got a file with an ETag line and brings its value back, at any later time and for any path, gets a 304 if and only if path and modification time are the same (section 3.2 of RFC 7232), for untruncated tags and paths starting with "/" |
| Connections.AnswerIsFramed | src/connection_handler.c:46-58 | the reply to a complete request is a 304 if and only if it is a GET for a readable file of a known static type whose first If-None-Match is the file's own tag; every other reply sent is well-framed |
| Framing.HeadIsFound | src/response.c:27-44 | in any stream that starts with non-blank lines and a blank one, the client's search finds exactly these lines and what follows |
| Framing.ParseOneInverse | src/response.c:54-82 | the client takes a well-framed message off the front whole, whatever bytes follow it |
| Framing.ParseAllInverse | src/response.c:258-262 | the concatenation of any well-framed messages splits back into the same sequence |
| Framing.StrayBreaksStream | src/response.c:346-348 | after the first 304 the stream cannot be read to its end |
| Framing.ReadsBackIffNo304 | src/response.c:346-361 | the stream reads back as the messages sent if and only if no 304 is among them |
| Responses.AddCommonHeaders | src/response.c:27-44 | appends exactly the status, Date and Server lines, each ended by CR LF |
| Responses.ResponseError | src/response.c:54-82 | sends one message whose announced length is that of its body |
| Responses.ResponseOptions | src/response.c:384-404 | sends one message with the allowed methods and no body |
| Responses.SendScriptOutput | src/response.c:258-264 | sends one message around the script's whole output |
| Responses.AddFileHeaders | src/response.c:350-360 | these bytes followed by any content of the announced size are the rendered file message |
| Responses.AddNotModified | src/response.c:347-348 | the bytes of a 304 with the blank line before its Connection header |
| Responses.StreamFile | src/response.c:362-377 | for every size for which the loop ends at all, also when the header block fills the buffer exactly: the sends are the header and as much of the file as stat announced, cut at the buffer's capacity, nothing lost or repeated |
| Responses.FillOnce | src/response.c:363-366 | one turn moves bytes from the file to the buffer without changing the two together, and keeps the loop on its way to an end |
| Responses.ChunksShape | src/response.c:363-377 | the pieces add up to the whole, none is empty or exceeds the capacity, all but the last are exactly the capacity |
| Responses.ChunksCount | src/response.c:363-377 | their number is ceil((header + file) / capacity) |
| FileLoop.LoopEndsIff | src/response.c:362-371 | with 64-bit wrap-around, the loop ends if and only if stat's size is the file's, is 0, or falls short so that it runs out where a buffer is full |
| FileLoop.TurnsAlign | src/response.c:363-370 | after any number of turns the count is stat's size less the bytes read up to wrap-around, at a full buffer or at the end of the file |
| FileLoop.FailedStatSpins | src/response.c:181-186 | when stat fails after fopen the size is 2^64-1: the loop spins for every shorter file, and the announced length is a numeral of 20 digits |
| FileLoop.ChangedFileSpins | src/response.c:336-371 | a file cut short after stat, and one that has grown, for which the loop spins |
| ResponseFraming.ErrorIsFramed | src/response.c:54-82 | an error response is well-framed, for any signature and date without CR LF |
| ResponseFraming.OptionsIsFramed | src/response.c:392-395 | so is the OPTIONS response |
| ResponseFraming.ScriptIsFramed | src/response.c:258-262 | so is a script's response, for any output, even one that looks like a message itself |
| ResponseFraming.FileIsFramedIff | src/response.c:350-360 | a file response is well-framed if and only if the date text puts no blank line into the head |
| ResponseFraming.NotModifiedIsStray | src/response.c:347-348 | the 304 has its Connection header behind its blank line |
| Connections.ResponseCgi | src/response.c:214-274 | on every path the right response and the code that goes with it, or the crash for an existing name without an extension; python3 is run for .py and php for .php, on this file and fed with these arguments, and nothing otherwise |
| Connections.ResponseFile | src/response.c:310-381 | 404, 304 or the whole file, as content type, file and If-None-Match demand |
| Connections.ResponseGet | src/response.c:277-382 | from the path to the one response a GET deserves and its code |
| Connections.ResponsePost | src/response.c:406-421 | the same for POST, which only runs scripts, crash included |
| Connections.CrashIff | src/response.c:235-242 | strcmp gets a NULL extension if and only if the request is a POST for something that exists and has no dot anywhere in its name |
| Connections.ScriptsDirectoryIsFatal | src/response.c:235-242 | POST /scripts under base_path /var/www, where the repository's files put a directory of that name |
| Connections.GetMethod | src/connection_handler.c:15-26 | the method for exactly the three known names, unknown for every other |
| Connections.Dispatch | src/connection_handler.c:46-58 | the response that method, path and headers determine, and its code, or the crash; a script gets the query of a GET and the body of a POST as its input |
| Answers.GetServesFile | src/response.c:290-381 | a GET for a readable file of a known type (default_path for "/") gets status 200, the whole content as body, its type, length and tag in their header lines, and keeps the connection |
| Answers.GetRevalidates | src/response.c:344-348 | if its first If-None-Match is the file's tag it gets a 304 without the file |
| Answers.GetRefuses | src/response.c:296-334 | a name without a dot gets a 501, an unknown type, a missing or an unreadable file a 404, and both close the connection |
| Answers.ScriptsRun | src/response.c:242-274 | a GET or POST for a script that exists and can be run gets its whole output with status 200 and keeps the connection |
| Answers.ScriptsFail | src/response.c:235-256 | for a script that does not exist a 404 that keeps the connection, for one that cannot be run a 500 that ends it |
| Answers.PostRefuses | src/response.c:235-240 | a POST for a missing name gets a 404 and keeps the connection |
| Answers.PostRefusesOthers | src/response.c:246-250 | a POST for any other existing name gets a 501 and keeps the connection |
| Answers.PostKills | src/response.c:242 | a POST for an existing name without a dot is fatal |
| Answers.OtherMethods | src/connection_handler.c:46-58 | OPTIONS gets the allowed methods whatever its path, every other method a 501, and both keep the connection |
| Answers.BadRequests | src/connection_handler.c:36-44 | a malformed or too long request gets its 400 and keeps the connection; one that never arrives gets nothing and ends it |
| Answers.KnownTypes | src/response.c:157-174 | each content type with exactly its extensions |
| Answers.ErrorText | src/response.c:63-71 | the bytes of an error response, in order |
| Answers.OptionsText | src/response.c:392-395 | the bytes of an OPTIONS response, in order |
| Answers.ScriptText | src/response.c:258-262 | the bytes of a script's response, in order |
| Answers.NotModifiedText | src/response.c:347-348 | the bytes of a 304, in order |
| Answers.FileBytes | src/response.c:350-377 | the bytes of a file's response, in order |
| Connections.ConnectionHandler | src/connection_handler.c:28-59 | one call sends exactly the messages, and ends in exactly the way, that Handled reads off what the client does; each message is delimitable or a 304; what is left unread is what the read loop left |
| Connections.Receive | src/connection_handler.c:28-44 | a complete request has its own method, headers and clean path, whose file is inside base_path exactly when StaysInside says so |
| Connections.Respond | src/connection_handler.c:36-58 | turns the result of request_process into exactly the messages and the outcome called for; a 400 keeps the connection open |
| Service.TurnsAreDetermined | src/thread_pool.c:175-177 | what the client does determines the turns of its connection: there is only one complete sequence of them |
| Service.OneResponsePerTurn | src/thread_pool.c:175-177 | each turn sends one response, but a last one in which no request arrived or the request killed the server |
| Service.AnsweredOneByOne | src/thread_pool.c:175-177 | a client whose reads bring one request each time gets each answered as if it were alone, in order, up to the first that closes the connection |
| Service.SentApart | src/request.c:65-84 | two requests in two reads get two responses |
| Service.PipelinedRequestIsLost | src/request.c:65-84 | the same two requests in one read get a single response |
| Service.CrashedIff | src/thread_pool.c:175-177 | the connection ends in a crash if and only if one of its turns gets a fatal request |
| Service.RepliesHave304Iff | src/response.c:341-348 | among the replies of a connection there is a 304 if and only if some turn gets a request that revalidates an unchanged file |
| Service.ServeAll | src/thread_pool.c:175-177 | the worker's loop over a connection terminates for any parser and any files; each turn gets exactly what the one before left unread, every turn but the last left the connection open, and everything sent is the turns' responses in order |
| Service.ServeConnection | src/thread_pool.c:175-177 | over the whole connection: one response per turn but a silent last one; the server dies if and only if a turn gets a fatal request; the client reads back exactly the responses sent if and only if no turn revalidates an unchanged file |
| Scripts.ExecuteScript | srclib/execute_scripts/execute_scripts.c:23-101 | whichever of its calls fails, a successful fork for this interpreter and file is followed by exactly one kill and one wait, after the input has been written if there is memory for the output; the output is the whole of what the script wrote before its end of file |
| Scripts.RunsAreOk | srclib/execute_scripts/execute_scripts.c:33-101 | in every state a running child is the one its own parent has yet to kill, unreaped children have different pids, and forks = waits + unreaped children |
| Scripts.RunningAtMostBusy | srclib/execute_scripts/execute_scripts.c:56-87 | the running children never outnumber the workers that have not killed theirs |
| Scripts.EnoughToReap | srclib/execute_scripts/execute_scripts.c:87-88 | with many workers and a wait that reaps any child, the dead or dying unreaped children are always at least as many as the workers waiting |
| Scripts.WaitersNeverStarve | srclib/execute_scripts/execute_scripts.c:88 | a waiting worker's wait can return now, or as soon as a child already killed has died |
| Scripts.ForksMatchWaits | srclib/execute_scripts/execute_scripts.c:33-101 | forks exceed waits by exactly the scripts in flight; when none is, every child has been reaped |
| Scripts.KillHitsForeignIff | srclib/execute_scripts/execute_scripts.c:87 | a kill reaches another worker's running script if and only if one's own child was already reaped and its pid given out again |
| Scripts.KillCanHitForeign | srclib/execute_scripts/execute_scripts.c:56-95 | a concrete run in which that happens |
| Inheritance.DrainEndsIff | srclib/execute_scripts/execute_scripts.c:83 | with many workers, a drain can end if and only if no living child, of whichever worker, holds the write end of that script's stdout |
| Inheritance.InheritsIff | srclib/execute_scripts/execute_scripts.c:28-37 | a child gets hold of the write ends of another script's pipes if and only if it is forked between their pipe() and the server's close() |
| Inheritance.RunsKeepInv | srclib/execute_scripts/execute_scripts.c:28-85 | stage by stage, which of the four ends of each script's pipes the server has open, and which its child has before and after its exec |
| Inheritance.ExitIff | srclib/execute_scripts/execute_scripts.c:80-83 | a child that reads its input to the end can exit if and only if no living child has the other end open; its own and the server's are closed |
| Inheritance.AloneFinishes | srclib/execute_scripts/execute_scripts.c:80-87 | a script whose pipes no other child has open can exit, and its drain can then end |
| Inheritance.OneScriptFinishes | srclib/execute_scripts/execute_scripts.c:28-87 | a run in which one script alone gets to its end, with or without a timeout, and no pipe end stays open |
| Inheritance.HoldersOnlyLeave | srclib/execute_scripts/execute_scripts.c:66-83 | while a script is drained nobody new gets hold of its stdout |
| Inheritance.TimeoutFrees | srclib/execute_scripts/execute_scripts.c:47-49 | with a timeout a drain can end, or the alarm of one of the holders is still to come and takes that one out |
| Inheritance.DeadlockHappens | srclib/execute_scripts/execute_scripts.c:28-83 | a run in which two scripts that read their input each hold the other's open, and both workers drain |
| Inheritance.DeadlockIsForEver | srclib/execute_scripts/execute_scripts.c:28-83 | without a timeout neither of the two drains can ever end, whatever others do |

## Left out

- DynamicBuffer.Buffer.AppendNumber: when realloc may fail it asks for the 20 bytes to be there already, because the code does not look whether its growth succeeded (`srclib/dynamic_buffer/dynamic_buffer.c:88-90`).
- Responses.StreamFile: asks for a size for which the loop ends, since there is no final state otherwise; `FileLoop.LoopEndsIff` shows that this is exactly the condition.
- Connections.ResponseFile: stat's size is that of the file; a failing or outdated stat is in `FileLoop` and `Responses.StreamFile`, not in the handler.
- Requests.Request.IsRequestValid: asks for a target that is not empty, because the code computes size - 1 on an unsigned number (`src/request.c:17`); the parser's complete requests have one.
- PoolShutdown.HardDestroyOutcome: that a cancelled thread does act on the cancellation rather than take further requests for ever is the scheduler's part; the theorem counts productive steps, as for the soft kind.
- Service.ServeAll: responses are built with memory that does not run out, sends are whole and succeed (so the recursion at `src/response.c:74-78` never starts), and sizes are below 10^19.
- Responses.ResponseError: the same for the failed allocation and the failed send at `src/response.c:58-61` and `src/response.c:74-79`.
- Responses.ResponseOptions: the same for `src/response.c:386-390` and `src/response.c:397-401`.
- Responses.SendScriptOutput: the same for `src/response.c:219-223` and `src/response.c:264-269`.
- picohttpparser is not part of this model: a parser is any function of the buffered bytes, the room for headers and the bytes seen before; `Arrivals` names what it assumes of one. Targets are free of CR LF and NUL.
- Requests.Request.Process: where in the buffer the body begins is left open (`src/request.c:48-56`); that `_parse_body` reads before the array when a request has no headers (`src/request.c:52`) is not modelled.
- System-call failures outside the ones named above: mutexes, the signal mask, reads in `dynamic_buffer_append_fd`, and fopen succeeding on a directory.
- What happens after the pool is freed while a retired worker or the unjoined watcher still runs; the model of the pool ends at the free.
- The failures of `thread_pool_ini` are in `ThreadPool`, not in the transition system; what cancelling the thread named by uninitialised memory does (`src/thread_pool.c:73`, `src/thread_pool.c:282`) is undefined and not modelled.
- Scripts.ForksMatchWaits: a hard destruction may cancel a worker in the read or the wait of a script, whose child then stays unreaped.
- Scripts.ExecuteScript: end of file on the script's output is taken for granted; when it comes is in `Inheritance`. Writing to a script that has already exited raises SIGPIPE, which nobody handles (`srclib/execute_scripts/execute_scripts.c:70`), and so does sending to a client that has gone; a cancelled worker may leave its child unreaped.
- Inheritance.DrainEndsIff: pipes are modelled by who holds their ends, not by their contents; a write that fills a pipe is not modelled, nor children that leave processes of their own behind.
- accept and the assignment to client_fd are one step; signals arriving inside library calls that hold locks of their own are not modelled.
- SIGURG may be acted on at any later moment while deliverable, except that unblocking it delivers it at once; cancellation acts in accept, in the handler and in the close, and is missed in at most one accept.
- Sizes are unbounded integers except where a width is named; characters stand for bytes.
- Clocks, dates, process ids, file contents and modification times are parameters; dates are opaque text.
- Configuration, logging, daemon start, `server.c`, the macOS branch and the `www` scripts.
- The client of `Framing` is section 3.3.3 of RFC 7230 as far as this server's responses need it: no chunked coding, no HEAD, no upgrade.
