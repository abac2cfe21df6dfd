# Verified model of the OPC UA test service

The test service accepts test jobs over HTTP, queues them, runs each one in a forked `testRunner`
process, and tells every open browser through server-sent events when a job has finished. Requests
and results are files; a Lua console runs beside it. This project models the parts of that system
whose correctness depends on several pieces fitting together, and proves what they guarantee for
every input, every run and every interleaving.

| file | what it models |
|---|---|
| `Scheduling.dfy` | the job scheduler as a sequential machine of atomic operations, and its whole-run laws |
| `Scheduler.dfy` | `JobScheduler` as an object, each method proved against that machine |
| `Service.dfy` | the running service as a machine of fine steps: lock, new job, push, find, callback, erase, fork, record, unlock, child exit, `sigwait`, `wait`, dispatcher steps of other threads |
| `ServiceSafety.dfy` | the invariant of the fine machine, group of steps by group of steps |
| `ServiceTheorems.dfy` | linearizability, no lost completion, capacity, exactly-once reporting, signal accounting |
| `ServiceProgress.dfy` | deadlock freedom over both mutexes; exactly when the queue stalls for ever |
| `System.dfy` | service, store and runner processes together, over all lifetimes of the service and crashes at any point |
| `Requests.dfy` | whose request is whose job, over the events of any run |
| `Dispatcher.dfy` | `EventDispatcher`: the ticket protocol, as a step machine and as an object |
| `NewlineRuns.dfy` | what collapsing runs means, by positions |
| `EventStream.dfy` | the event printer, the stream and JSON readers, and exactly when they are inverse |
| `Utf8.dfy` | UTF-8 and the decoder browsers use |
| `EventBytes.dfy` | events whose data is arbitrary bytes, and exactly which of them arrive |
| `Decimal.dfy` | `std::to_string` and `std::stoi` |
| `JobStore.dfy` | request and result files, id recovery, the runner process, runs with crashes and restarts |
| `Paging.dfy` | the two-way page of finished jobs |
| `ConsoleArgs.dfy` | a grammar of the console's command line and the pieces of code that read it |
| `LuaStack.dfy` | the Lua stack and the C API calls the console makes (sections 4.1, 4.3 and 4.8 of the Lua 5.3 Reference Manual) |
| `ConsoleCalls.dfy` | passing arguments, running chunks, libraries and scripts |
| `ConsoleReader.dfy` | reading statements over several lines, and the read-eval-print loop |
| `Console.dfy` | the whole run of the console on one Lua state |
| `ConsoleLaws.dfy` | what that run does, command line by command line, in terms of calls and messages |

How the pieces connect: the methods of `JobScheduler` compute `Scheduling.Apply`; every critical
section of the fine machine is one `Scheduling.Apply` (`ServiceTheorems.Linearizable`), so the laws
of `Scheduling` hold of the concurrent service; its callback steps are steps of `Dispatcher`, whose
messages are frames of `EventStream`, which carry ids printed by `Decimal`
(`ServiceTheorems.BrowserLearnsId` goes through all of them). `System` runs the fine machine and the
store side by side through crashes and restarts. The service is built with a limit of 4 concurrent jobs;
every result here is for an arbitrary limit of at least 1.

## What the code does that one might not expect

- SIGCHLD does not count and each wake-up reaps one child. A child that exits while the signal is
  already pending is never reaped unless a later child exits; its job stays active and is not
  announced. `SignalAccount` gives the exact balance and `QuiescenceIff` says which jobs are announced.
  At rest with no child alive the service has stopped for good if and only if as many runners as there
  are slots were left unreaped (`StallIff`), and for every limit that happens in some run
  (`StallReachable`).
- The event printer escapes newlines and nothing else, and console output is cut into pieces of at most
  1024 bytes. `BytesArriveIff` says exactly which bytes arrive, `StreamRoundTripIff` which lists of
  texts do; `QuoteIsLost` and `CutCharacter` are two inputs that do not. Had the data been escaped, every
  text would arrive (`EscapingWouldDo`).
- A connection that is overtaken by a second message before it runs sleeps for ever on that ticket
  (`OvertakenNeverWakes`, `OvertakenReachable`), and a message sent while it is not registered is lost to
  it; `GapFreeIff` is the exact condition for losing none.
- The upward page writes its separator before it knows that another result exists. `ForwardPageIff`
  says exactly when the page is a proper list; `DanglingSeparator` is a page that is not.
- The downward page holds up to `max + 1` results.
- `handle_script` recovers the parser's decision by looking back one word, which is wrong for a program
  called `--` (`LookBack`, `ProgramCalledDashes`).
- When the input of the console ends inside an unfinished statement, the prompt takes the place of the
  compiler's message on the stack, and is what gets reported (`LoadLine`).
- Recovery after a restart restores the id counter and not the queue. A job that was issued before a crash
  and has no result yet can still get one if and only if its runner is alive and its request parses
  (`CrashLosesIff`); every job waiting in the queue is lost (`QueueIsLost`), and for every limit some run
  loses a request it has answered (`RequestLost`).

## Model

| member | source | states |
|---|---|---|
| `Scheduling.GoodStep` | testService/JobScheduler.cpp:20-116 | one create, completion or stray completion keeps FIFO order, conservation of ids, capacity, work conservation and exactly-once reporting, although `schedule` starts at most one job |
| `Scheduling.GoodRun` | testService/JobScheduler.cpp:20-116 | the same after every run: started ids and queue are the consecutive ids from the first one, `activeJobs` is injective, every started id is either active or erased once, a job waits only while all slots are taken, and what was reported is what was erased |
| `Scheduling.CompleteConserves` | testService/JobScheduler.cpp:101-110 | erasing a finished pid moves one id from active to erased, loses none and frees one slot |
| `Scheduling.StartConserves` | testService/JobScheduler.cpp:32-84 | starting the front of the queue under an unused pid keeps every id accounted for and takes one slot |
| `Scheduling.EnterKeeps` | testService/JobScheduler.cpp:88-110 | before `schedule` runs, at most one slot is free while jobs wait, or the queue holds only the new job; this is why one start per call is enough |
| `Scheduling.ReusedPidLosesJob` | testService/JobScheduler.cpp:84 | recording a job under a pid keeps conservation if and only if the pid is not an active one |
| `Scheduling.StartRate` | testService/JobScheduler.cpp:20-33 | with every slot taken only a matching completion starts a job, and it starts exactly one if one waits |
| `Scheduling.DrainRate` | testService/JobScheduler.cpp:20-116 | over a whole run, while the jobs queued at its start drain, the number of starts equals the number of matching completions |
| `Scheduling.WaitingBound` | testService/JobScheduler.cpp:20-116 | a job with q jobs ahead has been started if and only if q+1 matching completions have happened, and until then it moves up one place per completion |
| `Scheduling.StartsExactlyOn` | testService/JobScheduler.cpp:20-116 | the operation that starts a queued job is the (q+1)-th matching completion and no other one |
| `Scheduler.JobScheduler.constructor` | testService/JobScheduler.cpp:15-18 | a new scheduler is empty, starts at the store's counter and satisfies the invariant |
| `Scheduler.JobScheduler.Schedule` | testService/JobScheduler.cpp:20-86 | the effect of `schedule` on queue, map and exit, and no event |
| `Scheduler.JobScheduler.Create` | testService/JobScheduler.cpp:88-95 | is the atomic create operation, keeps the invariant, returns the old counter and writes the request under it |
| `Scheduler.JobScheduler.Complete` | testService/JobScheduler.cpp:101-110 | the callback gets the printed id of the erased entry, once, before it is erased, or nothing if none is set |
| `Scheduler.JobScheduler.JobFinished` | testService/JobScheduler.cpp:97-116 | is the atomic completion operation, for active and stray pids, and keeps the invariant |
| `ServiceSafety.FinishInv` | testService/JobScheduler.cpp:97-110 | every step of `jobFinished` and of the callback it makes under the mutex keeps the invariant |
| `ServiceSafety.ScheduleInv` | testService/JobScheduler.cpp:20-86 | every step of `schedule`, including the gap between `fork` and the insertion, keeps the invariant |
| `ServiceSafety.CreateInv` | testService/JobScheduler.cpp:88-95 | every step of `create` keeps the invariant |
| `ServiceSafety.KernelInv` | testService/TestService.cpp:233-254 | child exits, `sigwait` and `wait` keep the invariant at whatever point they happen |
| `ServiceSafety.DispatcherInv` | api/Server.h:20-37 | dispatcher steps of connections and of the REPL thread keep it |
| `ServiceSafety.StepInv` | testService/JobScheduler.cpp:20-116 | every step of the service keeps locks, children, critical sections, history and sent messages consistent |
| `ServiceSafety.RunInv` | testService/JobScheduler.cpp:20-116 | the invariant holds after every interleaving |
| `ServiceTheorems.Linearizable` | testService/JobScheduler.cpp:88-116 | whenever the mutex is free the scheduler state is the result of running whole operations one after the other, with all the laws of `Scheduling.Good` |
| `ServiceTheorems.ServiceWaitingBound` | testService/JobScheduler.cpp:20-116 | the exact waiting bound between any two moments of a concurrent run at which the mutex is free |
| `ServiceTheorems.NoLostCompletion` | testService/JobScheduler.cpp:32-116 | when the signal thread looks up a reaped pid, it is active if and only if it was a runner, under the job that runner ran, even if the runner ended before it was recorded |
| `ServiceTheorems.Capacity` | testService/JobScheduler.h:35 | at every instant at most `limit` runners are alive |
| `ServiceTheorems.ExactlyOnce` | testService/JobScheduler.cpp:97-116 | at every instant no id has been announced twice and each announcement is its own message; with the mutex free the announced ids are exactly the started ones no longer active |
| `ServiceTheorems.AnnouncementArrives` | testService/JobScheduler.cpp:107 | the announcement of an id decodes to the event with that printed id |
| `ServiceTheorems.BrowserLearnsId` | testService/JobScheduler.cpp:105-108 | from the message of the i-th announcement in any run a browser reads back the i-th reported id |
| `ServiceTheorems.SignalAccount` | testService/TestService.cpp:233-254 | zombies are exactly one if the signal is pending, one if a `wait` is owed, and one per exit that found the signal pending |
| `ServiceTheorems.WaitNeverBlocks` | testService/TestService.cpp:49-54 | after `sigwait` there is a child to reap |
| `ServiceTheorems.QuiescenceIff` | testService/TestService.cpp:49-54 | at rest a job whose runner ended was announced if and only if its runner is not left a zombie; as many zombies are left as exits were coalesced; if all of them are runners, everything was announced if and only if no exit was coalesced |
| `ServiceProgress.SomeHolderCanRun` | api/Server.h:20-37 | while a mutex is held, some holder has an enabled step that brings its release closer |
| `ServiceProgress.MutexesGetFree` | testService/JobScheduler.cpp:88-116 | from every reachable state the holders alone can free both mutexes within a bounded number of steps |
| `ServiceProgress.NoDeadlock` | testService/Repl.h:84-100 | every thread blocked on either mutex in a reachable state (creator, signal thread, connection entering or woken up, REPL thread) can take it after steps of the holders only; a woken connection then goes on if and only if no further message was sent in between |
| `ServiceProgress.StuckForever` | testService/JobScheduler.cpp:20-33 | with all slots taken, no child alive and no signal pending, no run without a new foreign child starts anything |
| `ServiceProgress.StallIff` | testService/TestService.cpp:49-54 | at rest with no child alive the slots taken are exactly those of runners left zombies, each an exit whose signal was lost, and some continuation starts a job if and only if they are fewer than `limit` |
| `ServiceProgress.StallReachable` | testService/JobScheduler.h:35 | for every limit and request a run reaches a state at rest from which no job is ever started, with a job waiting and none announced |
| `System.ForkAllowed` | testService/JobScheduler.cpp:32-34 | the job about to be forked was issued in this lifetime of the service and never had a runner before |
| `System.StepJoint` | testService/JobScheduler.cpp:20-116 | every step of the service, the end of a runner of this or an earlier lifetime, and a crash at any point keep counters, started jobs, processes and announcements of service and store consistent |
| `System.RunJoint` | testService/DataBase.h:34-49 | that holds over all lifetimes |
| `System.AnnouncedIsOver` | testService/JobScheduler.cpp:101-110 | when a job is announced its runner has ended; its result file exists if and only if its request parses and the runner ended normally, and then tells the truth about the request, the outcome and the times |
| `System.CrashLosesIff` | testService/DataBase.h:40-49 | a job issued before a crash and without a result gets one in some continuation if and only if its runner is alive and its request parses |
| `System.QueueIsLost` | testService/JobScheduler.h:40 | no job waiting in the queue at a crash ever gets a result |
| `System.RequestLost` | testService/DataBase.h:40-49 | for every limit, parser and request some run loses that request after answering it with an id |
| `Requests.RequestStored` | testService/JobScheduler.cpp:88-93 | over the events of any run, crashes included: if a thread called `create` with a request and that call took id n, then from then on n is issued for exactly that request and the request file n holds it |
| `Requests.EveryIdHasACall` | testService/JobScheduler.cpp:88-95 | every id was taken by the call of some thread that arrived, waited and was let in |
| `Requests.IdsInOrder` | testService/JobScheduler.cpp:90-91 | two calls take different ids, the smaller one for the thread that took the mutex first, whatever the order of arrival and the lifetime |
| `Requests.IssuedByCall` | testService/DataBase.cpp:7-19 | no id is issued in any other way |
| `Dispatcher.StepKeepsInv` | api/Server.h:20-37 | every step keeps `cid_ == id_ - 1`, the mutex, the tickets and the order of deliveries |
| `Dispatcher.Reachable` | api/Server.h:14-45 | the ticket invariant in every reachable state: each connection got messages unaltered, in sending order, none twice |
| `Dispatcher.SendsCount` | api/Server.h:31-37 | the ticket counter advances by exactly one per send |
| `Dispatcher.WakesAfterExactlyOneSend` | api/Server.h:20-37 | a registered connection can run if and only if the mutex is free and exactly one message was sent since; it then delivers that message |
| `Dispatcher.OvertakenNeverWakes` | api/Server.h:24 | after a second send it sleeps for ever, in every continuation |
| `Dispatcher.OvertakenReachable` | api/Server.h:20-37 | such a connection is reachable |
| `Dispatcher.DeliveryAccount` | api/Server.h:20-37 | for each connection every message sent is delivered, pending or lost |
| `Dispatcher.GapFreeIff` | api/Server.h:20-37 | a connection's further deliveries are consecutive up to the pending message if and only if it lost none |
| `Dispatcher.EventDispatcher.constructor` | api/Server.h:17-18 | the object starts as the machine does |
| `Dispatcher.EventDispatcher.SendEvent` | api/Server.h:31-37 | is the lock, send and unlock steps of the machine, appends one framed message to the history and keeps the ticket invariant |
| `Dispatcher.EventDispatcher.EventCallback` | api/Server.h:228-233 | sends the event's printed form; for a plain name the browser gets the event, each run of newlines collapsed to one, if and only if the data is safe |
| `Dispatcher.EventDispatcher.BeginWait` | api/Server.h:20-24 | is the machine's registration; the ticket taken is that of the next message, so the wait cannot end at once |
| `Dispatcher.EventDispatcher.EndWait` | api/Server.h:24-29 | is the machine's wake-up and delivery; it writes exactly the message its ticket stands for, if the sink is writable |
| `EventStream.DecodePayload` | api/Server.h:228-233 | decoding a printed safe event gives its name and its data with each run of newlines collapsed to one, position by position |
| `EventStream.FrameDispatches` | api/Server.h:34 | a frame with a one-line payload dispatches that payload and leaves the rest of the stream as it was |
| `EventStream.ReceivedFirst` | hmi/testToolApp/src/app/repl/repl.component.ts:43-48 | a safe event at the head of any stream is read first and independently of the rest |
| `EventStream.StreamRoundTrip` | api/Server.h:228-233 | for every list of safe events the browser reads back exactly as many events, in order, each with its name and its data, every run of newlines collapsed to one |
| `EventStream.StreamRoundTripIff` | api/Server.h:228-233 | a list of events with plain names arrives in that sense if and only if the data of every event is safe |
| `EventStream.FrameStandsAlone` | api/Server.h:34 | whatever its data, the frame of an event dispatches at least one event and leaves the reader of the following stream as if it had not been there |
| `EventStream.FrameRoundTripIff` | api/Server.h:228-233 | one event arrives in that sense if and only if its data has no quote, backslash or control character other than a newline |
| `EventStream.RunBecomesMark` | api/Server.h:229-230 | every maximal run of newlines becomes one mark, whatever stands around it |
| `EventStream.NoRunNoMark` | api/Server.h:229-230 | text without newlines is not changed |
| `EventStream.ReplaceCollapses` | api/Server.h:229-230 | with a newline as the mark, the result is the text with its runs collapsed, by the definition on positions |
| `EventBytes.ReplaceRunsCollapses` | api/Server.h:229-230 | the same for bytes |
| `NewlineRuns.CollapsesUnique` | api/Server.h:229-230 | there is one way only to collapse the runs of a text |
| `NewlineRuns.NoRunLeft` | api/Server.h:229-230 | afterwards no two newlines are adjacent |
| `NewlineRuns.OthersStay` | api/Server.h:229-230 | everything but the newlines is as it was, in order |
| `EventStream.EscapingWouldDo` | api/Server.h:231 | had the data been escaped by section 7 of RFC 8259, every text would arrive unaltered |
| `EventStream.PlainEventArrives` | api/Server.h:228-233 | an event without newlines arrives unaltered |
| `EventStream.QuoteIsLost` | testService/Repl.h:84-100 | console output consisting of a quote does not arrive |
| `EventStream.StringBodyCost` | hmi/testToolApp/src/app/repl/repl.component.ts:43-48 | whatever text a JSON string is read from is at least as long as its value plus one per character that needs an escape |
| `EventStream.CollapsedCost` | api/Server.h:229-231 | the printed data is shorter than JSON needs by exactly the number of unsafe characters |
| `EventStream.DispatchCost` | api/Server.h:34 | the first event dispatched extends the buffered text and is no longer than what was sent |
| `Utf8.TextRoundTrip` | hmi/testToolApp/src/app/repl/repl.component.ts:43-48 | the browser's decoder reads every text back from its UTF-8 bytes |
| `Utf8.PieceIsExact` | hmi/testToolApp/src/app/repl/repl.component.ts:43-48 | what the decoder accepts is exactly the encoding of the character it gives; everything else is replaced |
| `EventBytes.WireDecodes` | api/Server.h:228-233 | for arbitrary bytes, replacing newline runs and framing on bytes and then decoding gives the frame of the decoded data |
| `EventBytes.SafeBytesIff` | api/Server.h:229-231 | whether the decoded data is safe can be read off its bytes |
| `EventBytes.BytesArriveIff` | api/Server.h:228-233 | arbitrary bytes arrive as the text they encode, each run of newlines collapsed to one, if and only if they are well-formed UTF-8 without a quote, backslash or control character other than a newline |
| `EventBytes.CutCharacter` | testService/Repl.h:84-100 | a piece of console output that ends inside a character has only safe bytes and does not arrive |
| `Decimal.RoundTrip` | testService/DataBase.cpp:81 | reading back a printed integer gives the integer |
| `Decimal.Injective` | testService/DataBase.cpp:11 | two ids never share a file name |
| `Decimal.Canonical` | testService/DataBase.cpp:11 | printed ids have no leading zeros: every other sequence of digits is the print of its value |
| `Decimal.StoiReads` | testService/DataBase.cpp:81 | reading takes white space, a sign if there is one and all the digits that follow, ignores the rest, and fails exactly without a digit |
| `JobStore.DataBase.constructor` | testService/DataBase.h:34-49 | recovery ends on every directory, changes no file and sets the counter to the first id without a request |
| `JobStore.DataBase.NewJob` | testService/DataBase.cpp:7-19 | writes the request under the old counter, advances the counter by one, touches nothing else, and is the two steps of the store machine that a crash can separate |
| `JobStore.DenseFirstMissing` | testService/DataBase.h:43-48 | on a directory of exactly 0 .. n-1 the recovered counter is n and nothing else |
| `JobStore.Job.Execute` | testrunner/Job.cpp:11-43 | the job ends FINISHED if and only if load and eval completed, ABORTED on a caught exception, and which timestamps are then set |
| `JobStore.Job.AddResult` | testrunner/Job.cpp:50-80 | the record carries the id, the timestamps, the request and Ok exactly for a finished job |
| `JobStore.RunTestRunner` | testrunner/TestRunner.cpp:34-44 | if the request parses and the runner ends normally, writes one result under the job's own name with the parsed id, the request, Ok if and only if load and eval completed, the start if load completed, stop and duration if both did, and 0 otherwise; else writes nothing |
| `JobStore.StoreInvariant` | testService/DataBase.cpp:7-19 | over every sequence of creates, crashes, restarts, starts and ends of runners, requests are exactly 0 .. n-1, issued ids keep their requests, and the result files are exactly what the runners wrote |
| `JobStore.ResultIntegrity` | testrunner/Job.cpp:50-80 | if create returned n, a result n exists if and only if the request parses and a runner for n ended normally; it carries the parse of that request, id n, Ok if and only if load and eval completed, and the times of that run; the next id has no result yet |
| `JobStore.RestartRecovers` | testService/DataBase.h:34-49 | at any point of any run, also between writing the file and counting it, a restart recovers exactly the number of request files |
| `JobStore.NothingOverwritten` | testService/DataBase.cpp:7-19 | no request file is ever changed or lost and no id is issued for a second request |
| `JobStore.StaysLost` | testService/DataBase.h:40-49 | a job of an earlier lifetime without a result and without a live runner stays without a result |
| `Paging.CopyLines` | testService/DataBase.cpp:111-115 | the loop copies a file line by line, each up to its first NUL |
| `Paging.CopyIsFaithful` | testService/DataBase.cpp:111-115 | a file without NUL is copied unaltered, with a newline added at its end if it has none |
| `Paging.CStringMeans` | testService/DataBase.cpp:114 | of a line exactly what comes before its first NUL is kept |
| `Paging.CopyOfLine` | testService/DataBase.cpp:111-115 | a file is copied line by line, and a last line without a newline gets one |
| `Paging.JoinConcat` | testService/DataBase.cpp:102-105 | two lists joined are their texts with one separator between them |
| `Paging.Search` | testService/DataBase.cpp:74-96 | despite its early exit the scan finds the id if and only if some name stands for it, and otherwise yields the highest id |
| `Paging.HighestIsMaximum` | testService/DataBase.cpp:82-85 | that id is an upper bound of all ids in the directory and one of them, or -1 |
| `Paging.PrintForward` | testService/DataBase.cpp:98-118 | prints the copies of the longest gap-free run of results upwards from the id within `max`, joined by separators, and one more separator if the run is cut short |
| `Paging.PrintReverse` | testService/DataBase.cpp:119-140 | prints the copies of the longest gap-free run downwards to 0 within `max + 1`, joined by separators |
| `Paging.GetFinishedJobs` | testService/DataBase.cpp:68-143 | the text is the upward page if some name stands for the id, else a proper list of the downward run from the highest id |
| `Paging.OrderIndependent` | testService/DataBase.cpp:76-96 | any two texts that are pages of listings with the same names, in any order and multiplicity, are equal |
| `Paging.PageUnique` | testService/DataBase.cpp:68-143 | a listing, the files and the query determine the page |
| `Paging.ForwardPageIff` | testService/DataBase.cpp:98-118 | the upward page is a proper list if and only if `max` consecutive results exist or not even the first does |
| `Paging.DanglingSeparator` | testService/DataBase.cpp:102-110 | a page with a separator and nothing after it |
| `ConsoleArgs.ScanWord` | repl/console.cpp:520-555 | one word is classified exactly as the grammar says: stop, fault, or an option with its mask bits and width |
| `ConsoleArgs.ScanArgument` | repl/console.cpp:543-552 | the argument of `-e` and `-l` is the rest of the word or the next word, or it is missing |
| `ConsoleArgs.CollectArgs` | repl/console.cpp:513-559 | every command line has a parse; the mask and `first` are those of whatever parse it has, the mask is `has_error` if and only if that parse rejects, and the positions visited are those of its options |
| `ConsoleArgs.ParseUnique` | repl/console.cpp:513-559 | a command line has at most one parse, so that result is determined |
| `ConsoleArgs.MaskIsEven` | repl/console.cpp:500-542 | the mask of an accepted command line never has the error bit, and `-i` implies `-v` |
| `ConsoleLaws.MaskMeans` | repl/console.cpp:500-544 | each bit of the mask is set if and only if its option was given, and that of `-v` also by `-i` |
| `ConsoleArgs.RunWord` | repl/console.cpp:571-583 | reads an option word and its argument back as the parser understood it, without leaving `argv` |
| `ConsoleArgs.LookBack` | repl/console.cpp:484-490 | the word before the script is `--` if and only if the parser stopped there or the program has that name; hence when standard input is run |
| `ConsoleArgs.ProgramCalledDashes` | repl/console.cpp:488 | the exception is reachable |
| `ConsoleArgs.UsageMessage` | repl/console.cpp:145-151 | on rejection the word shown is the one at fault, and the missing-argument message is chosen if and only if the argument was missing |
| `ConsoleLaws.UsageSays` | repl/console.cpp:145-151 | the text printed says that the argument is missing, or that the option is unknown, if and only if that is the fault |
| `ConsoleCalls.Report` | repl/console.cpp:182-191 | on failure prints the text of the value on the top and removes it, on success does nothing, and passes the status on |
| `ConsoleCalls.DoCall` | repl/console.cpp:217-229 | calls the function just below the arguments with the handler in place and leaves exactly the outcome above the old stack, without the handler |
| `ConsoleCalls.CreateArgTable` | repl/console.cpp:247-260 | sets `arg` with the script at index 0 and leaves the stack unchanged |
| `ConsoleCalls.DoChunk` | repl/console.cpp:263-268 | net stack effect is the chunk or message itself, on success and on every failure |
| `ConsoleCalls.DoString` | repl/console.cpp:277-280 | compiles and calls the text once, with zero net stack effect whatever happens |
| `ConsoleCalls.DoFile` | repl/console.cpp:271-274 | the same for a file |
| `ConsoleCalls.DoLibrary` | repl/console.cpp:287-296 | calls `require` once, stores its value as a global on success only, with zero net stack effect whatever happens |
| `ConsoleCalls.PushArgs` | repl/console.cpp:470-481 | with a moving relative index, leaves the old stack plus fields 1 .. n of `arg` for a border n, and raises exactly if `arg` is no table |
| `ConsoleCalls.ArgBorder` | repl/console.cpp:247-260 | the table built from the command line has one border only, and its fields up to it are the words after the script |
| `ConsoleCalls.PassArguments` | repl/console.cpp:470-481 | building `arg` and pushing it leaves the old stack plus exactly the words after the script, for every command line |
| `ConsoleCalls.CallScript` | repl/console.cpp:493-494 | the function on the top is called with the fields of `arg` and replaced by the outcome |
| `ConsoleCalls.HandleScript` | repl/console.cpp:484-497 | loads the file or standard input, calls it with exactly the words after the script if `arg` is unchanged, leaves its results, or nothing on failure |
| `ConsoleReader.PushLine` | repl/console.cpp:341-360 | reads one line without its newline, `=` turned into `return` on a first line; at end of input leaves the prompt |
| `ConsoleReader.AddReturn` | repl/console.cpp:367-381 | adds the compiled expression above the line, or nothing |
| `ConsoleReader.Incomplete` | repl/console.cpp:322-335 | removes the message if and only if it marks the text as unfinished |
| `ConsoleReader.TryStatement` | repl/console.cpp:391-401 | one round: keep the outcome, or join another line by a newline |
| `ConsoleReader.Multiline` | repl/console.cpp:387-403 | ends for every input and compiler, having compiled the join of exactly the lines the statement takes |
| `ConsoleReader.ExtentIsShortest` | repl/console.cpp:387-403 | those lines are the shortest prefix whose compilation is not a syntax error with a message ending in `<eof>`, or all the input |
| `ConsoleReader.JoinedIsTyped` | repl/console.cpp:387-403 | if every buffer is a whole line, what is compiled is what was typed, without the last newline |
| `ConsoleReader.EqualsMeansReturn` | repl/console.cpp:354-355 | a first line that starts with `=` is the line with `return` instead |
| `ConsoleReader.LoadLine` | repl/console.cpp:412-423 | leaves exactly one value: the expression if `return line;` compiles, else the statement's function or message; consumes exactly its lines |
| `ConsoleReader.PrintResults` | repl/console.cpp:429-440 | calls `print` once with everything on the stack in order, or not at all on an empty one; what is on the stack and what was said after it succeeded or failed |
| `ConsoleReader.RunLoaded` | repl/console.cpp:454-459 | calls the loaded chunk exactly if it compiled, prints exactly the values it returned if any, says the message of a chunk that did not load or that failed, and the prompt for an unfinished one |
| `ConsoleReader.DoREPL` | repl/console.cpp:447-464 | ends for every input and compiler with an empty stack and all input used, having made exactly the calls of the session: each chunk in turn, each followed by `print` on its values if it returned any |
| `ConsoleReader.SessionRunsProgram` | repl/console.cpp:447-464 | in a session each chunk that compiles is called once and in order, whatever the chunks do and however they end |
| `ConsoleReader.SessionPrints` | repl/console.cpp:452-460 | from the call list and the outcomes alone: chunks are called without arguments, each one that returns values is followed at once by the `print` it left behind on exactly those values, and there are no other calls |
| `ConsoleReader.ExpressionAtPrompt` | repl/console.cpp:452-460 | an expression at the prompt is called and what it returns is printed |
| `Console.Execute` | repl/console.cpp:580-582 | an accepted option does what `dostring` or `dolibrary` does and leaves the stack as it was |
| `Console.RunOption` | repl/console.cpp:571-583 | one round executes exactly the parser's next option, or passes over the `--` |
| `Console.RunArgs` | repl/console.cpp:566-586 | visits the same positions as `collectargs` (and the `--`), executes on one Lua state exactly the accepted `-e` and `-l` options in order up to the first that fails, and leaves the stack as it was |
| `Console.HandleInit` | repl/console.cpp:589-604 | runs the file or text of the initialisation, if there is one |
| `Console.Open` | repl/console.cpp:652-659 | `arg`, then the initialisation unless `-E` was given, then the options, each stage only if the one before succeeded, with the stack unchanged |
| `Console.RunConsole` | repl/console.cpp:618-683 | for every command line the exact calls, globals and messages of the whole run: usage, options, script, interactive loop or standard input, and how it ends |
| `Console.ScriptGetsWords` | repl/console.cpp:470-481 | a script run while `arg` is unchanged is called with exactly the words after it |
| `ConsoleLaws.OptionsCall` | repl/console.cpp:566-586 | the options make one call each, in order, up to the first that fails: `-e` its compiled chunk, `-l` the library; only a failure says something |
| `ConsoleLaws.InitIgnored` | repl/console.cpp:653-657 | with `-E` the initialisation has no influence on the run |
| `ConsoleLaws.InitFirst` | repl/console.cpp:652-657 | without it the initialisation is the first call, and the last thing the run does if it fails |
| `ConsoleLaws.EndOfRun` | repl/console.cpp:663-682 | with `-i`, or with no script, `-e` or `-v` on a terminal, the chunks of the input are called in order and their results printed; without a terminal standard input is one more call; otherwise nothing more is called |
| `ConsoleLaws.FailureEnds` | repl/console.cpp:658-662 | after a failed option or script nothing more is called |
| `ConsoleLaws.CommandE` | repl/console.cpp:566-586 | `prog -e x` and `prog -ex`: exactly one call, of the compiled x, its effect, its message, and success if and only if it returns |
| `ConsoleLaws.CommandL` | repl/console.cpp:287-296 | `prog -l x` and `prog -lx`: `require` is called with x and its value becomes the global x; then standard input |
| `ConsoleLaws.CommandScript` | repl/console.cpp:484-497 | `prog file a b c`: the file, or standard input for `-`, is called with exactly a b c, and success if and only if it returns |

## Left out

- Reuse of a pid that has been reaped and not yet looked up: `fork` is taken not to return it. `Scheduling.ReusedPidLosesJob` says exactly what this protects.
- Children reaped by anyone but the signal thread: `cloneScriptRepo` and its `system()` call are not modelled; other children of the service, such as the console's, are.
- Integer width: ids, tickets, `fromId + max` and the numbers read by `stoi` are unbounded; out-of-range exceptions are not modelled.
- File failures and partial files: every write succeeds and is seen as a whole, and a file can be read if it exists.
- JobStore.RunTestRunner: the result is a record; how nlohmann's JSON library prints it, and so the text that `Paging` copies, is not modelled; the parser is a parameter.
- System.StepJoint: a runner's result appears in the step in which it exits; a runner that is killed while writing is not modelled.
- Dispatcher.Reachable: a wake-up whose predicate is false is no step, and writing to a connection does not block.
- EventBytes.BytesArriveIff: the event's name has no quote, backslash or control character, which holds of both names in use; JSON members that are not strings and surrogate escapes do not decode.
- ServiceProgress.StallIff: a foreign child that starts and exits later would wake the signal thread again, so continuations with a new one are not considered.
- ConsoleReader.LoadLine: input comes as given buffers without NUL; the 512-byte limit of a buffer, readline history, the conversion of a numeric prompt to a string, and chunks that read standard input themselves are not modelled.
- ConsoleCalls.Report: the program name before a message, and the text of error values that are numbers.
- LuaStack: stack overflow checks, metamethods and table identity; the compiler and the outcome of calls are oracles.
- Console.RunConsole: output of the version, the other lines of the usage message and interrupt handling; opening the standard libraries is part of the state it starts from.
- What a forked child does before `exec`, pipes and terminals: operating system calls.
- HTTP routing, request and response types, scripts, targets, logs, configuration, the InfluxDB importer, the Lua and OPC UA bindings and the web application: plumbing, or clients of libraries that would add only easy members.
