# Judge server: a verified model

The repository is the back end of an online judge. A broker thread passes submissions to worker
threads. A worker builds a directory, compiles the submission, runs it on a number of tests, checks
each output and replies with one verdict. This project models that pipeline in Dafny and proves what
the verdict means, what the worker's resources and replies obey, and what the two concurrent protocols
(request forwarding, shared log) keep in every interleaving.

| file | models |
|---|---|
| Protocol.dfy | verdicts, results, limits, 32-bit stores |
| Judge.dfy | one run: wait-status macros, `Run`, `TraceLoop`, `WaitExit`, time and memory arithmetic |
| Checker.dfy | memory mapping, `Checker::run`, `isEqualStr`, `isPE` |
| Presentation.dfy | what AC means, and what the relation "AC or PE" forgives |
| Comparison.dfy | the checker's verdicts byte by byte |
| Answers.dfy | the worker's answers in terms of request, files and kernel reports |
| Limits.dfy | which limits a run can meet and exceed, and what acceptance says about them |
| Sequences.dfy | concatenation and slices |
| Judger.dfy | `execute`: one run followed by one check |
| Verdict.dfy | the loop over the tests, and when "Accepted" comes out |
| Paths.dfy | decimal rendering, path and file naming |
| Os.dfy | the descriptor table, the temporary directory, `mkdir`, `remove`, `open`, `close` |
| Files.dfy | `FileManger` |
| WorkDir.dfy | what `removeDir` and the retry loop of `buildEnv` do to a directory |
| Worker.dfy | `JudgeWorker`: `buildEnv`, `removeDir`, `getFileno`, `processTask`, `run` |
| Framing.dfy | multipart messages and the broker's forwarding loop |
| Broker.dfy | clients, broker and workers as a transition system |
| Log.dfy, LogThreads.dfy | one `Log` object; many threads with one `Log` each |

The outside world enters as data. A child process is the list of events that `wait4` reports about it
(a list that runs out is a `wait4` that never returns) together with the bytes it writes. `fstat` and
`mmap` outcomes are flags on a file. A call that ends the process (`printError`) is an outcome of its
own, and so is never coming back.

## What the proofs found

The model follows the code, including where the code does not do what one would expect:

- An earlier time, memory or runtime verdict is forgotten when that test's output was right: the next
  test overwrites it (`FirstIsForgotten`). For a request with `n` tests, "Accepted means no run was killed
  by a signal" holds for all submissions if and only if the request is traced or `n <= 1`
  (`RequestEndsIff`); "Accepted means every run was within the limits" if and only if `n <= 1`, or it is
  traced and its limits are the greatest that can be told apart (`RequestLimitsIff`).
- Memory below the language's allowance wraps around to almost 4 TB and is reported as Memory Limit
  Exceeded. The memory verdict is right under every limit if and only if the usage lies between the
  allowance and 4 TB above it (`MemoryVerdictIff`); similarly for time beyond 32 bits of milliseconds
  (`TimeVerdictIff`).
- The comparison stops at a NUL. Acceptance is byte equality, and "accepted or presentation error" is
  equality of the contents without white space, against every expected output below 2 GB if and only if
  the output has no NUL before its last byte (`AcceptIsEqualityIff`, `LenientIff`). Four gigabytes more on
  the expected side are not noticed (`TruncatedIsAccepted`).
- "Accepted or presentation error" is reflexive and symmetric on outputs of 1 to 1000 bytes. It is
  transitive from an output if and only if that output has no NUL at all, or it is 1000 bytes without
  white space whose only NUL is the last one (`TransitiveIff`). Editing white space never crosses between
  {AC, PE} and WA if and only if neither version has a NUL before its last byte, or they have the same
  length and the same C string (`WhitespaceIsOnlyPresentation`).
- `removeDir` does not descend. A directory it cannot clear makes `buildEnv` loop for ever without
  changing anything (`SweepFixpoint`, `ReadyIff`). Over a worker's whole run, a request whose run id was
  used before is judged if and only if the last such request left nothing that `removeDir` cannot clear,
  and never ends otherwise (`ReusedRunIff`). A byte code directory as Python's compiler makes it is
  enough (`CacheBlocksNext`).
- The comments beside the two directory-entry types in `removeDir` are swapped: 8 is a regular file and
  4 a directory. The model follows the numbers.
- A log line is stamped once at its start if and only if its `endl()` is evaluated before all of its
  tokens, or after all of them and so was the previous line's (`StampedOnceIff`).

## Model

| member | source | states |
|---|---|---|
| Protocol.ToInt32 | judge_server/judge_worker/judger/checker.h:57-58 | storing a file size in an `int32_t` keeps it modulo 2^32, and unchanged when it fits |
| Judge.StatusRoundTrip | judge_server/judge_worker/judger/judge.cc:136-138 | the wait-status macros recover exit, signal death and stop from the kernel's word; a signal death shows stop signal 0 |
| Judge.FirstStop | judge_server/judge_worker/judger/judge.cc:129-187 | the returned event does not let the child go on and every earlier one does |
| Judge.Judge.TraceLoop | judge_server/judge_worker/judger/judge.cc:123-201 | the ptrace loop returns and records what the first event that is not a permitted trap makes of the run, and blocks exactly when there is none |
| Judge.Judge.WaitExit | judge_server/judge_worker/judger/judge.cc:80-121 | the untraced wait records usage, verdict and signal of its one event |
| Judge.Judge.Run | judge_server/judge_worker/judger/judge.cc:18-52 | chooses between the two; waiting always yields kOk |
| Judge.TraceOkIff | judge_server/judge_worker/judger/judge.cc:123-201 | a traced run returns kOk iff it exits after traps only, all but the first on permitted calls |
| Judge.CleanExitFinishes | judge_server/judge_worker/judger/judge.cc:188-200 | such a run is decided there and its verdict is that of the limits |
| Judge.ErrorVerdicts | judge_server/judge_worker/judger/judge.cc:138-181 | kError comes only from tracing, with TLE, MLE or RE; kUnknown never comes |
| Judge.FirstOffence | judge_server/judge_worker/judger/judge.cc:138-181 | signal death is RE with signal 0; other stops report their signal, TLE iff SIGALRM or SIGXCPU, MLE iff SIGSEGV over the limit; a forbidden call is RE with signal -1 |
| Judge.UntracedSignalIsOk | judge_server/judge_worker/judger/judge.cc:95-111 | an untraced signal death is kOk with a verdict TLE, MLE or RE fixed by the signal |
| Judge.TracedExitAgrees | judge_server/judge_worker/judger/judge.cc:87-119 | for a child whose `n`-th event is a clean exit, the traced run gives what the untraced wait gives on the events from `n` on |
| Judge.ReportedTime | judge_server/judge_worker/judger/judge.cc:142-176 | the reported time of any run is the deciding event's user time in whole milliseconds, when it fits 32 bits |
| Judge.ReportedMemory | judge_server/judge_worker/judger/judge.cc:144-192 | the reported memory of any run is the deciding event's less the allowance, which a forbidden call is not granted |
| Judge.TimeVerdictIff | judge_server/judge_worker/judger/judge.cc:188-195 | TLE iff user microseconds reach (limit + 1) ms, under every limit, exactly when the milliseconds fit 32 bits |
| Judge.MemoryVerdictIff | judge_server/judge_worker/judger/judge.cc:190-199 | absent TLE, MLE iff touched memory exceeds limit plus allowance, under every limit, exactly when it is in [allowance, allowance + 2^32) |
| Judge.BelowAllowance | judge_server/judge_worker/judger/judge.cc:190-192 | below the allowance the stored memory is 2^32 less the deficit |
| Judge.ExitReport | judge_server/judge_worker/judger/judge.cc:188-200 | the whole result of a run that exits, traced or not, from the kernel's numbers: milliseconds, faults times page size less the allowance, limits with time first, signal -1 |
| Judge.KilledReport | judge_server/judge_worker/judger/judge.cc:87-111 | the whole result of an untraced run that a signal ends: TLE for 14 and 24, MLE for 11 over the memory limit, else RE |
| Judge.StoppedReport | judge_server/judge_worker/judger/judge.cc:138-168 | the whole result of a traced run that anything but an exit or signal 5 ends |
| Judge.ForbiddenReport | judge_server/judge_worker/judger/judge.cc:169-184 | the whole result of a traced run that a forbidden call ends |
| Judge.BlockedIff | judge_server/judge_worker/judger/judge.cc:129-187 | a run is still waiting iff it is traced and every event let it go on, or untraced without an event |
| Checker.MappedBytes | judge_server/judge_worker/judger/memmap.hpp:23-36 | a mapping is whole pages: the file's bytes, then zeros |
| Checker.MemoryMap.Map | judge_server/judge_worker/judger/memmap.hpp:23-36 | maps at most once, later calls return the same memory, failure gives null |
| Checker.Checker.CheckOutLength | judge_server/judge_worker/judger/checker.cc:75-104 | the length gate: over 1000 bytes is OLE, lengths recorded otherwise |
| Checker.Checker.IsEqualStr | judge_server/judge_worker/judger/checker.h:35-46 | with a NUL at index n of the first string, decides equality up to the first NUL; the highest index read is the first difference or common end, and at most n |
| Checker.Checker.IsPE | judge_server/judge_worker/judger/checker.cc:106-138 | true iff the outputs are equal after deleting all white space; no read out of bounds, pointer moves at most the sum of the lengths |
| Checker.MatchesIsStripped | judge_server/judge_worker/judger/checker.cc:106-138 | two pointers that skip white space compare the stripped rests, from every pair of positions |
| Checker.Checker.Run | judge_server/judge_worker/judger/checker.cc:10-48 | code and verdict are the specification's for every pair of files, including failed calls and lengths that do not fit |
| Checker.CodeMatchesVerdict | judge_server/judge_worker/judger/checker.cc:10-48 | kOk iff the verdict is AC; kError iff it is OLE, UKE, PE or WA |
| Checker.ClosedForm | judge_server/judge_worker/judger/checker.cc:10-48 | on readable files: OLE, UKE on an empty side, AC, PE, WA in terms of the contents alone |
| Checker.EqualIsAccepted | judge_server/judge_worker/judger/checker.cc:37-40 | equal outputs of 1 to 1000 bytes are accepted |
| Comparison.UncomparedIff | judge_server/judge_worker/judger/checker.cc:75-104 | OLE iff over 1000 bytes; UKE iff a call fails or a length is not positive |
| Comparison.ComparedIff | judge_server/judge_worker/judger/checker.cc:28-47 | otherwise AC iff equally long and equal, at least through some NUL; PE iff not AC and equal when tabs, newlines, carriage returns and spaces are skipped; else WA |
| Comparison.StripLetters | judge_server/judge_worker/judger/checker.cc:106-138 | what is compared are the bytes, in order, that are none of 9, 10, 13, 32 |
| Comparison.InsertedByteIff | judge_server/judge_worker/judger/checker.cc:112-131 | one byte more is PE iff it is 9, 10, 13 or 32, else WA |
| Presentation.AcceptIsEqualityIff | judge_server/judge_worker/judger/checker.cc:28-40 | AC means byte equality, against every readable expected output of 1 byte to below 2 GB, iff the output has no NUL before its last byte |
| Presentation.TruncatedIsAccepted | judge_server/judge_worker/judger/checker.h:57-58 | an expected output 4 GB longer than the user's can be accepted |
| Presentation.LenientIff | judge_server/judge_worker/judger/checker.cc:28-47 | AC or PE means equal stripped contents, against every readable expected output of 1 byte to below 2 GB, iff the output has no NUL before its last byte |
| Presentation.LenientSymmetric | judge_server/judge_worker/judger/checker.cc:28-47 | AC or PE is reflexive and symmetric on outputs of 1 to 1000 bytes |
| Presentation.WhitespaceIsOnlyPresentation | judge_server/judge_worker/judger/checker.cc:28-47 | two outputs that differ in white space only are on the same side of WA, for every readable expected output of 1 byte to below 2 GB, iff neither has a NUL before its last byte or they have the same length and C string |
| Presentation.InsertionIff | judge_server/judge_worker/judger/checker.cc:28-47 | for white space inserted at one place, iff neither version has a NUL before its last byte |
| Presentation.TransitiveIff | judge_server/judge_worker/judger/checker.cc:28-47 | from an output of 1 to 1000 bytes, two lenient verdicts in a row always make a third iff it is NUL-free, or has 1000 bytes, no white space, and a NUL as its last byte only; the other two files are any readable ones of 1 byte to below 2 GB |
| Presentation.BrokenChain | judge_server/judge_worker/judger/checker.cc:37-47 | a witness: AC, then PE, but WA across |
| Judger.Judger.Execute | judge_server/judge_worker/judger/judger.cc:11-67 | writes the run's output, then combines run and check into the step's results and the go-on flag |
| Verdict.StepResults | judge_server/judge_worker/judger/judger.cc:29-66 | a test's results are its run's, but for the verdict, which is the checker's iff the run was kOk and the check failed |
| Verdict.StepWithoutResults | judge_server/judge_worker/judgeworker.cc:150-160 | a test has no step iff its files are missing, and hangs iff its run does not end |
| Verdict.GoesOnIff | judge_server/judge_worker/judger/judger.cc:29-66 | judging goes on iff run and check both returned kOk |
| Verdict.StopDecides | judge_server/judge_worker/judgeworker.cc:150-165 | the first test that does not go on decides, else the last one; with no test the initial results stand |
| Verdict.NoTests | judge_server/judge_worker/judgeworker.cc:148-165 | with zero tests the verdict is kUKE |
| Verdict.HaltIsNotAccepted | judge_server/judge_worker/judger/judger.cc:39-59 | a test that stops judging never yields AC |
| Verdict.AcceptedIff | judge_server/judge_worker/judgeworker.cc:150-169 | AC iff there is a test, all runs and all checks returned kOk, and the last run's own verdict was AC |
| Verdict.AcceptedWhen | judge_server/judge_worker/judgeworker.cc:150-169 | the same from the kernel's numbers: each run ended by an exit after permitted traps, or at its one event; each answer was AC; the last end was an exit within the limits |
| Verdict.AcceptedAnswers | judge_server/judge_worker/judgeworker.cc:150-169 | an accepted submission's every answer was AC, and every traced run exited cleanly |
| Verdict.FirstIsForgotten | judge_server/judge_worker/judger/judger.cc:29-46 | any first run that returned kOk, whatever its own verdict, starts an accepted submission of n >= 2 tests, if some usage is within the limits |
| Verdict.CoversLimitsIff | judge_server/judge_worker/judger/judger.cc:29-46 | for given limits, acceptance implies all runs within them for all n-test submissions iff n <= 1, no usage meets them, or runs are traced and every usage meets them |
| Verdict.AcceptanceCoversLimitsIff | judge_server/judge_worker/judger/judger.cc:29-46 | for all limits at once, iff n <= 1 |
| Verdict.CoversEndsIff | judge_server/judge_worker/judger/judge.cc:95-111 | acceptance implies that no run was killed by a signal, for all n-test submissions, iff runs are traced, n <= 1, or no usage meets the limits |
| Limits.HopelessIff | judge_server/judge_worker/judger/judge.cc:188-200 | where pages are a power of two of kilobytes, no usage meets the limits iff what whole pages leave of the allowance exceeds the memory limit |
| Limits.BoundlessIff | judge_server/judge_worker/judger/judge.cc:188-200 | every usage meets them iff the time limit is 2^32 - 1 and the memory limit is at least the greatest figure that comes out |
| Limits.LimitsCoveredIff | judge_server/judge_worker/judger/judger.cc:29-46 | `Verdict.CoversLimitsIff` with its condition on the limits themselves |
| Limits.EndsCoveredIff | judge_server/judge_worker/judger/judge.cc:95-111 | `Verdict.CoversEndsIff` with its condition on the limits themselves |
| Limits.RequestEndsIff | judge_server/judge_worker/judger/judge.cc:95-111 | for a request of any language, acceptance implies that no run was killed iff it is traced or n <= 1 |
| Limits.RequestLimitsIff | judge_server/judge_worker/judger/judger.cc:29-46 | for a request of any language, acceptance implies all runs within its limits iff n <= 1, or it is traced with time limit 2^32 - 1 and memory limit at least 2^32 less a page |
| Paths.DecimalRoundTrip | judge_server/judge_worker/judgeworker.cc:211-213 | `%d` can be read back |
| Paths.DecimalDigits | judge_server/judge_worker/judgeworker.cc:211-213 | the digits of `%d`, base ten |
| Paths.PathFormats | judge_server/judge_worker/judgeworker.cc:229-248 | the five path formats, written out |
| Paths.ArtefactNames | judge_server/judge_worker/judger/judge_java.cc:10-20 | names that storing and compiling may leave |
| Paths.UserOutputPathInjective | judge_server/judge_worker/judgeworker.cc:245-248 | different (run, test) pairs never share an output path |
| Paths.TestDataPathsDiffer | judge_server/judge_worker/judgeworker.cc:229-240 | input and expected-output paths determine problem and test and never coincide |
| Paths.OutputIsNoArtefact | judge_server/judge_worker/judger/judge_java.cc:10-20 | an output file is never named like a source file or compiler artefact |
| Os.System.Close | judge_server/judge_worker/protocol.h:173-176 | closes one open descriptor; closing twice is not possible |
| Os.System.CreateFile | judge_server/judge_worker/protocol.h:185-190 | O_CREAT without truncation: a new file is empty, an existing one keeps its contents |
| Os.Overlay | judge_server/judge_worker/judgeworker.cc:245-251 | writing from offset 0 without truncation replaces a beginning and keeps the old tail, byte by byte |
| Os.System.Mkdir | judge_server/judge_worker/judgeworker.cc:214-219 | an existing name of any kind is EEXIST; a new one becomes an empty directory |
| Os.System.RemoveEntry | judge_server/judge_worker/judgeworker.cc:299-309 | `remove` deletes a file or an empty directory and leaves everything else |
| Files.FileManger.PushBack | judge_server/judge_worker/protocol.h:203-207 | appends one open file and keeps the list free of duplicates |
| Files.FileManger.CloseAll | judge_server/judge_worker/protocol.h:209-218 | closes exactly the held descriptors, once each, and empties the list |
| Files.FileManger.Destroy | judge_server/judge_worker/protocol.h:200-202 | destruction closes exactly what the list holds; the table is then empty, and every descriptor opened is closed, if it held nothing else |
| Files.DistinctCount | judge_server/judge_worker/protocol.h:195-221 | a list without duplicates holds as many descriptors as files |
| WorkDir.ClearableIff | judge_server/judge_worker/judgeworker.cc:298-312 | nothing survives a sweep iff every entry is a regular file or an empty directory |
| WorkDir.SurvivorsAreUndeletable | judge_server/judge_worker/judgeworker.cc:298-312 | exactly nonempty directories and special nodes survive, unchanged |
| WorkDir.SweepLeaves | judge_server/judge_worker/judgeworker.cc:291-317 | a sweep leaves all else alone and a directory of the undeletable entries, or none |
| WorkDir.SweepFixpoint | judge_server/judge_worker/judgeworker.cc:214-220 | one sweep of a directory that survives reaches a fixpoint of the whole tree |
| WorkDir.ReadyIff | judge_server/judge_worker/judgeworker.cc:199-223 | where mkdir may create, the work directory is built iff the path is absent or a clearable directory; it spins iff it is a directory that is not |
| WorkDir.BuildIff | judge_server/judge_worker/judgeworker.cc:199-223 | ready, spinning, aborting and refusing, each exactly when, whether or not mkdir may create |
| Worker.JudgeWorker.RemoveDir | judge_server/judge_worker/judgeworker.cc:291-317 | leaves exactly the survivors, or no directory, for every order of the entries |
| Worker.JudgeWorker.BuildEnv | judge_server/judge_worker/judgeworker.cc:199-223 | ready means an empty directory after at most two calls of mkdir; spinning leaves the tree at the fixpoint however long it is watched |
| Worker.JudgeWorker.GetFileno | judge_server/judge_worker/judgeworker.cc:225-256 | succeeds iff the test's files exist and the user output can be opened; three new descriptors refer to them and are on the list; an existing user output keeps its contents, a new one is empty |
| Worker.NextOutputIsFresh | judge_server/judge_worker/judgeworker.cc:245-250 | the next output file does not exist among artefacts and earlier outputs |
| Worker.JudgeWorker.RunTest | judge_server/judge_worker/judgeworker.cc:150-160 | a test's outcome is that of its case: the checker sees what this run wrote and nothing older |
| Worker.JudgeWorker.RunTests | judge_server/judge_worker/judgeworker.cc:150-164 | the imperative loop gives the fold over the cases, the log of executions, and the directory's contents |
| Worker.JudgeWorker.CleanEnv | judge_server/judge_worker/judgeworker.cc:164-168 | cleaning up removes the outputs and the directory unless an artefact survives |
| Worker.JudgeWorker.HandlesBalance | judge_server/judge_worker/judgeworker.cc:150-163 | opened = closed + held, and opened = closed + 3 times the executions since the last good one, whatever was executed; the closed flag is up iff the last execution was good or there was none |
| Worker.JudgeWorker.RunCompiled | judge_server/judge_worker/judgeworker.cc:147-169 | a compiled submission's outcome, the directory it leaves, and what its executions returned |
| Worker.JudgeWorker.JudgeTask | judge_server/judge_worker/judgeworker.cc:119-169 | the outcome after the directory is built: unknown language, compile error, or the verdict with the request's run id |
| Worker.JudgeWorker.ProcessTask | judge_server/judge_worker/judgeworker.cc:107-170 | the outcome is a function of request, submission and test data; an answered request leaves every other directory alone |
| Worker.AcceptedAnswerIff | judge_server/judge_worker/judgeworker.cc:127-169 | the answer is Accepted iff language known, compiled, at least one test, all runs and checks kOk on what each run wrote, last run within limits |
| Answers.SetupIs | judge_server/judge_worker/judger/judge_java.cc:22-24 | limits and rules come from the request; the languages offered are 0, 1, 2, 3 and 7; the allowance is 2048 KB for Python and Ruby, 14336 KB for Java, else 0 |
| Answers.CaseIs | judge_server/judge_worker/judgeworker.cc:225-256 | a test needs `in/<num>` and `out/<num>` of its problem, and the checker compares what its own run wrote with `out/<num>` |
| Answers.StopsIff | judge_server/judge_worker/judgeworker.cc:150-163 | judging stops at the first test that lacks a file, whose run does not end as it should, or whose answer is not AC |
| Answers.NoAnswer | judge_server/judge_worker/judgeworker.cc:150-160 | a missing file ends the process; a run that does not end leaves the request open |
| Answers.FaultAnswer | judge_server/judge_worker/judgeworker.cc:154-165 | the whole answer when a test stops judging: that test's own report, with the checker's verdict if its run was kOk |
| Answers.LastAnswer | judge_server/judge_worker/judgeworker.cc:154-165 | the whole answer when no test stops judging: the last run's own report |
| Answers.EmptyAnswer | judge_server/judge_worker/judgeworker.cc:148-165 | the whole answer without tests |
| Answers.ExitAnswer | judge_server/judge_worker/judgeworker.cc:164-165 | the answer to an untraced request whose last run exits, in the kernel's numbers |
| Answers.AcceptedWhen | judge_server/judge_worker/judgeworker.cc:127-169 | Accepted iff language offered, compiled, at least one test, every test good, last end an exit within the limits, all written out |
| Answers.CompileAnswer | judge_server/judge_worker/judgeworker.cc:138-145 | a compile error's verdict and message reach the client |
| Answers.FailedIff | judge_server/judge_worker/judgeworker.cc:107-135 | a request fails iff its directory cannot be created or its language is not offered; when it spins, exits or is judged |
| Answers.FailedReply | judge_server/judge_worker/judgeworker.cc:98-105 | a failed request's reply is System Error under run id 0 |
| Answers.LogIs | judge_server/judge_worker/judgeworker.cc:150-163 | one good execution for each test that went on, and one more if the next stopped judging |
| Answers.TaskLeaves | judge_server/judge_worker/judgeworker.cc:164-168 | a task leaves other directories alone, and of its own only what `removeDir` cannot delete |
| Worker.SameRunAgainIff | judge_server/judge_worker/judgeworker.cc:214-220 | right after a request, one with the same run id gets its directory iff the first one's artefacts could be swept, else it never ends |
| Worker.ReusedRunIff | judge_server/judge_worker/judgeworker.cc:199-223 | over any run, a request is judged iff the last earlier one with its run id left artefacts that could be swept, else it never ends; requests in between do not matter |
| Worker.NewRunIff | judge_server/judge_worker/judgeworker.cc:199-223 | a request with a new run id has the outcome that the directory at the start gives it |
| Worker.CacheBlocksNext | judge_server/judge_worker/judger/judge_python.cc:27-31 | compiling Python into a `__pycache__` directory blocks the run id |
| Worker.JudgeWorker.Run | judge_server/judge_worker/judgeworker.cc:63-105 | every request taken has the outcome that the directory left by those before it gives, up to the first not answered from judging; replies are those outcomes'; unless a request never ended, the executions are those of the answered tasks and three descriptors are open for each since the last good one |
| Worker.JudgeWorker.Destroy | judge_server/judge_worker/judgeworker.h:17 | destroying the worker closes every descriptor it opened |
| Worker.StartWorker | judge_server/main.cc:41-50 | a worker thread that leaves its loop has closed every descriptor it opened |
| Worker.OutcomesUnique | judge_server/judge_worker/judgeworker.cc:63-96 | the first directory and the order of the requests determine all outcomes |
| Worker.AnswersAreOwn | judge_server/judge_worker/judgeworker.cc:107-170 | an answer is the submission's own and depends on no earlier request |
| Worker.ReplyDiscipline | judge_server/judge_worker/judgeworker.cc:71-105 | replies sent = requests taken less the one in progress, in order; System Error with run id 0 is the last action |
| Worker.AnswerNamesItsRun | judge_server/judge_worker/judgeworker.cc:140-169 | an answer carries its request's run id |
| Framing.ZmqMutiMsg.RecvMutiMsg | judge_server/zmqmsg/zmqmsg.cc:99-111 | takes exactly the first message off the socket |
| Framing.ZmqMutiMsg.SendMutiMsg | judge_server/zmqmsg/zmqmsg.cc:88-97 | sends the frames in order with MORE on all but the last |
| Framing.DecodeEncode | judge_server/zmqmsg/zmqmsg.cc:88-111 | receiving what was sent yields the same frames, whatever follows |
| Framing.MessagesRoundTrip | judge_server/zmqmsg/zmqmsg.cc:88-111 | a stream of messages is received with its boundaries |
| Framing.PartsRoundTrip | judge_server/zmqmsg/zmqmsg.cc:88-111 | sending again the messages received gives the same parts |
| Framing.MessagesAppend | judge_server/zmqmsg/zmqmsg.cc:99-111 | streams of whole messages that follow each other keep their messages |
| Framing.Forward | judge_server/judgeserver.cc:87-95 | half of the loop body moves exactly one message, the first one waiting, to the end of what was sent; no part is lost |
| Framing.RunBroker | judge_server/judgeserver.cc:84-107 | over any number of polls, on each side the messages sent on are the first ones that arrived, one for each poll that found any, and the rest still wait |
| Framing.BacklogDrains | judge_server/judgeserver.cc:84-107 | once nothing more arrives, each poll sends on one waiting message until none is left |
| Broker.StepConserves | judge_server/judgeserver.cc:84-107 | no action of client, broker or worker loses or doubles a request |
| Broker.RunInv | judge_server/judgeserver.cc:84-107 | the invariant holds in every state of every interleaving |
| Broker.Conservation | judge_server/judgeserver.cc:84-107 | every request sent is in exactly one of the six places, and nothing else is anywhere |
| Broker.AnsweredOnce | judge_server/judge_worker/judgeworker.cc:71-95 | every reply delivered answers a request that was sent, and no other reply answers it |
| Broker.RightClient | judge_server/judge_worker/judgeworker.cc:71-105 | a reply reaches the client whose envelope it carried, with the run id asked about or as System Error |
| Broker.ErrorsAreGone | judge_server/judge_worker/judgeworker.cc:78-89 | in every reachable state the workers have said System Error as often as workers have left |
| Broker.FinishSays | judge_server/judge_worker/judgeworker.cc:78-105 | a good task is replied with its run and the worker stays; a failed one with System Error and the worker leaves |
| Broker.ErrorsDelivered | judge_server/judge_worker/judgeworker.cc:78-105 | clients never receive more System Errors than workers have left |
| Broker.TakenInOrder | judge_server/judgeserver.cc:84-107 | each worker takes its requests in the order in which they were handed to it |
| Broker.TurnServes | judge_server/judgeserver.cc:84-107 | one turn of the loop hands on the first message of each side that has any |
| Broker.PrefixForwarding | judge_server/judgeserver.cc:87-106 | on each side the broker has sent a message-wise prefix of what it was given |
| Broker.BrokerProceeds | judge_server/judgeserver.cc:84-107 | the broker never waits for a message that is not there |
| Broker.WorkerProceeds | judge_server/judge_worker/judgeworker.cc:71-75 | an idle worker can take any message that waits for it |
| Log.Log.LockOfLog | judge_server/log.hpp:80-85 | takes the mutex unless this log has it already |
| Log.Log.UnlockOfLog | judge_server/log.hpp:87-92 | gives the mutex back only if this log has it |
| Log.Log.Put | judge_server/log.hpp:119-134 | what `<<` with data writes, and that it leaves the log locked with both flags down |
| Log.Log.PutEnd | judge_server/log.hpp:109-117 | writes the newline and gives the mutex back |
| Log.Log.WriteLine | judge_server/log.hpp:94-134 | a whole statement writes its line and leaves the mutex free |
| Log.LineShape | judge_server/log.hpp:94-134 | a line is stamped once at its start iff `endl()` is early, or late with the flags up; which flags it leaves |
| Log.LinePiecesAre | judge_server/log.hpp:94-134 | every line piece by piece: header, data, a second header where `endl()` falls between two tokens, data, newline |
| Log.StampedOnceIff | judge_server/log.hpp:94-134 | over a thread's whole output, the exact condition on evaluation order |
| Log.OneOrderIsProper | judge_server/log.hpp:94-134 | either order, kept throughout, stamps every line exactly once |
| LogThreads.RunInv | judge_server/log.hpp:76-134 | the invariant holds in every state of every interleaving of any number of threads |
| LogThreads.LocalStepKeeps | judge_server/log.hpp:80-134 | every action of a thread writes the next piece that its line still owes |
| LogThreads.MutexDiscipline | judge_server/log.hpp:80-92 | a thread takes the mutex exactly when it starts a line, when it is free, and releases it exactly at the line's end |
| LogThreads.MutualExclusion | judge_server/log.hpp:80-92 | at most one `isLock_` is true, and its thread owns the mutex |
| LogThreads.WholeLines | judge_server/log.hpp:109-134 | the output is whole lines, each as its thread alone writes it, then a beginning of one line of the owner |
| LogThreads.ProgramOrder | judge_server/log.hpp:109-134 | each thread's lines come out in program order, none missing or doubled |
| LogThreads.NoDeadlock | judge_server/log.hpp:80-92 | while a thread is unfinished some thread can act; a blocked one waits for the owner, who can |
| LogThreads.RunsEnd | judge_server/log.hpp:80-134 | no run is longer than the work at its start |
| LogThreads.AllWritten | judge_server/log.hpp:109-134 | when all threads have finished, the output is all their lines and nothing else |

## Left out

- Process control (`vfork`, `execvp`, `dup2`, `setuid`, `ptrace`, `kill`): the child is its list of wait events and its output.
- A failing `wait4`, which in the untraced case goes on with uninitialised data, and `SetResourceLimit`, which is never called.
- JSON parsing and rendering, configuration, daemonising, the creation of threads, `reboot_server`, the sample clients.
- The commands that compile a submission and the system call tables: compiling is an outcome with the files it leaves, and the permitted calls are a parameter.
- Files that a judged program writes other than its standard output, and a user name clash inside the temporary directory between two workers with the same run id.
- Socket failures, clients that disappear, and whether a reply comes at all: a worker that left its loop keeps its queue.
- Buffering: each log has its own `fstream`, flushed when a line ends and before the mutex is given back, where the model has one unbuffered stream.
- A DEALER takes replies from its workers in turn, where the model's `back` is one queue in order of arrival.
- Logs before `setPrefix` and `setLog`, the text of time stamps, and lines without a data token; the program has none of the last.
- A full descriptor table: in the model `open` never fails for want of descriptors. The worker holds three for each execution since the last good one (`Worker.JudgeWorker.HandlesBalance`), all threads share the process's table, and a long enough streak of bad executions would end the process where Worker.JudgeWorker.Run still answers.
- File systems that do not report `d_type`, on which `removeDir` deletes nothing, and a temporary path that exists but is no directory.
- Compiler artefacts named otherwise than `Paths.ArtefactName` lists.
- The fixed-size path buffers of `removeDir` and every other buffer size.
- Judge.Judge.Run: an empty list of events is a wait that does not return; the process exit on a failed `wait4` is not an outcome.
- Checker.ClosedForm: expected outputs of 2^31 bytes or more, whose length is truncated; `Checker.CheckSpec` and `Checker.Checker.Run` cover them.
- Presentation.AcceptIsEqualityIff: user outputs that are empty or over 1000 bytes, which are never compared, and expected outputs that are empty or from 2 GB on; the same holds for Presentation.LenientIff, Presentation.WhitespaceIsOnlyPresentation and Presentation.TransitiveIff.
- Limits.RequestEndsIff: page sizes outside 1 KB to 2 MB; Limits.EndsCoveredIff covers every power of two.
- Broker.AnsweredOnce: the content of results beyond the run id, which Worker.JudgeWorker.Run gives.
- Framing.RunBroker: arrivals between the two halves of one loop body are counted with the next round.
