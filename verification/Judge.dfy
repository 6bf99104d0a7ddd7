/**
 Running the submission once (judge.cc).  The operating system is an input: the list of events
 that `wait4` reports about the child, each with its status word, its resource usage and the
 `orig_rax` register at that moment.  A list that runs out stands for a `wait4` that never
 returns.
 */
module Judge {
  import opened Protocol

  // ---------- wait status words ----------

  const SIGTRAP := 5
  const SIGSEGV := 11
  const SIGALRM := 14
  const SIGXCPU := 24

  type StatusWord = s: int | 0 <= s < 0x1_0000

  function WTermSig(status: StatusWord): int { status % 0x80 }

  function WStopSig(status: StatusWord): int { status / 0x100 }

  predicate WIfExited(status: StatusWord) { WTermSig(status) == 0 }

  predicate WIfSignaled(status: StatusWord) { 0 < WTermSig(status) < 0x7f }

  /** The three ways in which the kernel reports a child. */
  datatype ChildReport =
    | Exited(code: int)
    | Signaled(signal: int, core: bool)
    | Stopped(signal: int)
  {
    predicate Valid() {
      match this
      case Exited(code) => 0 <= code < 0x100
      case Signaled(signal, _) => 0 < signal < 0x7f
      case Stopped(signal) => 0 < signal < 0x100
    }

    function Status(): StatusWord
      requires Valid()
    {
      match this
      case Exited(code) => code * 0x100
      case Signaled(signal, core) => signal + if core then 0x80 else 0
      case Stopped(signal) => signal * 0x100 + 0x7f
    }
  }

  // ---------- resource usage ----------

  type Microseconds = u: int | 0 <= u < 1_000_000

  datatype Rusage = Rusage(utimeSec: nat, utimeUsec: Microseconds, minflt: nat)

  datatype WaitEvent = WaitEvent(status: StatusWord, usage: Rusage, origRax: nat)

  /** Everything fixed before the child starts; `pageKb` is the page size in kilobytes. */
  datatype Setup = Setup(condition: ExecuteCondition, callLimit: set<int>, pageKb: nat)

  /** User time in milliseconds before it is stored into 32 bits. */
  function UserMillis(usage: Rusage): nat {
    usage.utimeSec * 1000 + usage.utimeUsec / 1000
  }

  function TouchedKb(setup: Setup, usage: Rusage): nat {
    usage.minflt * setup.pageKb
  }

  function StoredTime(usage: Rusage): uint32 {
    ToUint32(UserMillis(usage))
  }

  function StoredMemory(setup: Setup, usage: Rusage): uint32 {
    ToUint32(TouchedKb(setup, usage) - setup.condition.memoryAdd)
  }

  // ---------- specification of one run ----------

  /** The verdict on a child that a signal ended or stopped. */
  function SignalVerdict(setup: Setup, signal: int, memoryUsed: uint32): JudgeResult {
    if signal == SIGSEGV then
      if memoryUsed > setup.condition.memoryLimit then MLE else RE
    else if signal == SIGALRM || signal == SIGXCPU then TLE
    else RE
  }

  /** The verdict on a child that ran to its end. */
  function LimitVerdict(setup: Setup, timeUsed: uint32, memoryUsed: uint32): JudgeResult {
    if timeUsed > setup.condition.timeLimit then TLE
    else if memoryUsed > setup.condition.memoryLimit then MLE
    else AC
  }

  datatype RunOutcome =
    | Blocked                                  // still inside wait4
    | Finished(code: ReturnCode, results: Results)

  predicate TrapStop(e: WaitEvent) {
    !WIfExited(e.status) && WStopSig(e.status) == SIGTRAP
  }

  /** Event `i` lets the traced child go on: a trap, and unless it is the first, an allowed call. */
  predicate Passes(setup: Setup, events: seq<WaitEvent>, i: nat)
    requires i < |events|
  {
    TrapStop(events[i]) && (i == 0 || ToInt32(events[i].origRax) in setup.callLimit)
  }

  /** The first event at or after `from` that does not let the child go on. */
  function FirstStop(setup: Setup, events: seq<WaitEvent>, from: nat): (n: nat)
    requires from <= |events|
    ensures from <= n <= |events|
    ensures forall i | from <= i < n :: Passes(setup, events, i)
    ensures n < |events| ==> !Passes(setup, events, n)
    decreases |events| - from
  {
    if from == |events| || !Passes(setup, events, from) then from
    else FirstStop(setup, events, from + 1)
  }

  /** What the event that ends tracing makes of the default results. */
  function TraceEnd(setup: Setup, e: WaitEvent): (ReturnCode, Results) {
    var time := StoredTime(e.usage);
    var memory := StoredMemory(setup, e.usage);
    var used := NO_RESULTS.(timeUsed := time, memoryUsed := memory);
    if WIfExited(e.status) then
      (Ok, used.(judgeResult := LimitVerdict(setup, time, memory)))
    else if WStopSig(e.status) != SIGTRAP then
      (Error, used.(judgeResult := SignalVerdict(setup, WStopSig(e.status), memory),
                    signumResult := WStopSig(e.status)))
    else
      (Error, used.(judgeResult := RE, memoryUsed := ToUint32(TouchedKb(setup, e.usage))))
  }

  function WaitExitResults(setup: Setup, e: WaitEvent): Results {
    var time := StoredTime(e.usage);
    var memory := StoredMemory(setup, e.usage);
    var used := NO_RESULTS.(timeUsed := time, memoryUsed := memory);
    if WIfSignaled(e.status) then
      used.(judgeResult := SignalVerdict(setup, WTermSig(e.status), memory),
            signumResult := WTermSig(e.status))
    else
      used.(judgeResult := LimitVerdict(setup, time, memory))
  }

  function RunSpec(setup: Setup, events: seq<WaitEvent>): RunOutcome {
    if setup.condition.trace then
      var n := FirstStop(setup, events, 0);
      if n == |events| then Blocked
      else
        var (code, results) := TraceEnd(setup, events[n]);
        Finished(code, results)
    else if events == [] then Blocked
    else Finished(Ok, WaitExitResults(setup, events[0]))
  }

  // ---------- the class ----------

  class Judge {
    const setup: Setup
    var results: Results

    constructor (setup: Setup)
      ensures this.setup == setup && results == NO_RESULTS
    {
      this.setup := setup;
      results := NO_RESULTS;
    }

    method Run(events: seq<WaitEvent>) returns (outcome: RunOutcome)
      requires results == NO_RESULTS
      modifies this
      ensures outcome == RunSpec(setup, events)
      ensures outcome.Finished? ==> results == outcome.results
    {
      if setup.condition.trace {
        outcome := TraceLoop(events);
      } else if events == [] {
        outcome := Blocked;
      } else {
        WaitExit(events[0]);
        outcome := Finished(Ok, results);
      }
    }

    method WaitExit(e: WaitEvent)
      requires results == NO_RESULTS
      modifies this
      ensures results == WaitExitResults(setup, e)
    {
      var condition := setup.condition;
      results := results.(timeUsed := ToUint32(e.usage.utimeSec * 1000 + e.usage.utimeUsec / 1000));
      results := results.(memoryUsed := ToUint32(e.usage.minflt * setup.pageKb - condition.memoryAdd));
      if WIfSignaled(e.status) {
        var signal := WTermSig(e.status);
        if signal == SIGSEGV {
          if results.memoryUsed > condition.memoryLimit {
            results := results.(judgeResult := MLE);
          } else {
            results := results.(judgeResult := RE);
          }
        } else if signal == SIGALRM || signal == SIGXCPU {
          results := results.(judgeResult := TLE);
        } else {
          results := results.(judgeResult := RE);
        }
        results := results.(signumResult := signal);
      } else {
        if results.timeUsed > condition.timeLimit {
          results := results.(judgeResult := TLE);
        } else if results.memoryUsed > condition.memoryLimit {
          results := results.(judgeResult := MLE);
        } else {
          results := results.(judgeResult := AC);
        }
      }
    }

    method TraceLoop(events: seq<WaitEvent>) returns (outcome: RunOutcome)
      requires results == NO_RESULTS
      modifies this
      ensures var n := FirstStop(setup, events, 0);
              if n == |events| then outcome == Blocked
              else
                var (code, ended) := TraceEnd(setup, events[n]);
                outcome == Finished(code, ended) && results == ended
    {
      var condition := setup.condition;
      var inSyscall := false;
      var next := 0;
      var e: WaitEvent;
      while true
        invariant 0 <= next <= |events|
        invariant inSyscall == (next > 0)
        invariant FirstStop(setup, events, 0) == FirstStop(setup, events, next)
        invariant results == NO_RESULTS
        decreases |events| - next
      {
        if next == |events| {
          return Blocked;
        }
        e := events[next];
        if WIfExited(e.status) {
          break;
        } else if WStopSig(e.status) != SIGTRAP {
          results := results.(timeUsed := ToUint32(e.usage.utimeSec * 1000 + e.usage.utimeUsec / 1000));
          results := results.(memoryUsed := ToUint32(e.usage.minflt * setup.pageKb - condition.memoryAdd));
          var signal := WStopSig(e.status);
          if signal == SIGSEGV {
            if results.memoryUsed > condition.memoryLimit {
              results := results.(judgeResult := MLE);
            } else {
              results := results.(judgeResult := RE);
            }
          } else if signal == SIGALRM || signal == SIGXCPU {
            results := results.(judgeResult := TLE);
          } else {
            results := results.(judgeResult := RE);
          }
          results := results.(signumResult := signal);
          return Finished(Error, results);
        } else {
          if inSyscall {
            if ToInt32(e.origRax) !in setup.callLimit {
              results := results.(timeUsed := ToUint32(e.usage.utimeSec * 1000 + e.usage.utimeUsec / 1000));
              results := results.(memoryUsed := ToUint32(e.usage.minflt * setup.pageKb));
              results := results.(judgeResult := RE);
              return Finished(Error, results);
            }
          } else {
            inSyscall := true;
          }
        }
        next := next + 1;
      }
      results := results.(timeUsed := ToUint32(e.usage.utimeSec * 1000 + e.usage.utimeUsec / 1000));
      results := results.(memoryUsed := ToUint32(e.usage.minflt * setup.pageKb - condition.memoryAdd));
      if results.timeUsed > condition.timeLimit {
        results := results.(judgeResult := TLE);
      } else if results.memoryUsed > condition.memoryLimit {
        results := results.(judgeResult := MLE);
      } else {
        results := results.(judgeResult := AC);
      }
      return Finished(Ok, results);
    }
  }

  // ---------- what a run's outcome means ----------

  /** The macros read back what the kernel wrote; a signal death shows stop signal 0. */
  lemma StatusRoundTrip(report: ChildReport)
    requires report.Valid()
    ensures WIfExited(report.Status()) <==> report.Exited?
    ensures WIfSignaled(report.Status()) <==> report.Signaled?
    ensures report.Signaled? ==> WTermSig(report.Status()) == report.signal && WStopSig(report.Status()) == 0
    ensures report.Stopped? ==> WStopSig(report.Status()) == report.signal
  {
  }

  /** Event `n` is the normal exit that a well-behaved traced child reaches. */
  ghost predicate CleanExitAt(setup: Setup, events: seq<WaitEvent>, n: nat) {
    && n < |events|
    && WIfExited(events[n].status)
    && (forall i | 0 <= i < n :: TrapStop(events[i]))
    && (forall i | 0 < i < n :: ToInt32(events[i].origRax) in setup.callLimit)
  }

  /** A stop index is unique, so it can be named by its properties. */
  lemma {:induction false} FirstStopUnique(setup: Setup, events: seq<WaitEvent>, from: nat, n: nat)
    requires from <= n < |events|
    requires forall i | from <= i < n :: Passes(setup, events, i)
    requires !Passes(setup, events, n)
    ensures FirstStop(setup, events, from) == n
    decreases n - from
  {
    if from < n {
      FirstStopUnique(setup, events, from + 1, n);
    }
  }

  /** A clean exit decides a traced run, by the limits alone. */
  lemma CleanExitFinishes(setup: Setup, events: seq<WaitEvent>, n: nat)
    requires setup.condition.trace && CleanExitAt(setup, events, n)
    ensures RunSpec(setup, events) == Finished(Ok, TraceEnd(setup, events[n]).1)
    ensures RunSpec(setup, events).results.judgeResult == ExitVerdict(setup, events[n].usage)
  {
    FirstStopUnique(setup, events, 0, n);
  }

  /** A traced run returns kOk exactly on a clean exit. */
  lemma TraceOkIff(setup: Setup, events: seq<WaitEvent>)
    requires setup.condition.trace
    ensures (RunSpec(setup, events).Finished? && RunSpec(setup, events).code == Ok)
       <==> exists n: nat :: CleanExitAt(setup, events, n)
  {
    if n: nat :| CleanExitAt(setup, events, n) {
      CleanExitFinishes(setup, events, n);
    } else if RunSpec(setup, events).Finished? && RunSpec(setup, events).code == Ok {
      var stop := FirstStop(setup, events, 0);
      forall i: nat | i < stop
        ensures TrapStop(events[i]) && (i == 0 || ToInt32(events[i].origRax) in setup.callLimit)
      {
        assert Passes(setup, events, i);
      }
      assert CleanExitAt(setup, events, stop);
    }
  }

  /** A run never ends in kUnknown, and one cut short is TLE, MLE or RE. */
  lemma ErrorVerdicts(setup: Setup, events: seq<WaitEvent>)
    ensures RunSpec(setup, events).Finished? ==> RunSpec(setup, events).code != Unknown
    ensures RunSpec(setup, events).Finished? && RunSpec(setup, events).code == Error ==>
      setup.condition.trace && RunSpec(setup, events).results.judgeResult in {TLE, MLE, RE}
    ensures RunSpec(setup, events).Finished? ==>
      RunSpec(setup, events).results.judgeResult in {AC, TLE, MLE, RE}
  {
  }

  /** One event, after any number that pass, fixes the verdict and the signal of a traced run. */
  lemma FirstOffence(setup: Setup, events: seq<WaitEvent>, n: nat, report: ChildReport)
    requires setup.condition.trace && n < |events|
    requires forall i | 0 <= i < n :: Passes(setup, events, i)
    requires report.Valid() && events[n].status == report.Status()
    ensures report.Signaled? ==>
      && RunSpec(setup, events).Finished? && RunSpec(setup, events).code == Error
      && RunSpec(setup, events).results.judgeResult == RE
      && RunSpec(setup, events).results.signumResult == 0
    ensures report.Stopped? && report.signal != SIGTRAP ==>
      && RunSpec(setup, events).Finished? && RunSpec(setup, events).code == Error
      && RunSpec(setup, events).results.signumResult == report.signal
      && (RunSpec(setup, events).results.judgeResult == TLE <==> report.signal in {SIGALRM, SIGXCPU})
      && (RunSpec(setup, events).results.judgeResult == MLE <==>
          report.signal == SIGSEGV && StoredMemory(setup, events[n].usage) > setup.condition.memoryLimit)
    ensures report == Stopped(SIGTRAP) && n > 0 && ToInt32(events[n].origRax) !in setup.callLimit ==>
      && RunSpec(setup, events).Finished? && RunSpec(setup, events).code == Error
      && RunSpec(setup, events).results.judgeResult == RE
      && RunSpec(setup, events).results.signumResult == -1
  {
    StatusRoundTrip(report);
    if !Passes(setup, events, n) {
      FirstStopUnique(setup, events, 0, n);
    }
  }

  /** An untraced child that a signal killed still makes `Run` return kOk, with a verdict of its own. */
  lemma UntracedSignalIsOk(setup: Setup, events: seq<WaitEvent>, signal: int, core: bool)
    requires !setup.condition.trace && |events| > 0
    requires 0 < signal < 0x7f && events[0].status == Signaled(signal, core).Status()
    ensures RunSpec(setup, events).Finished? && RunSpec(setup, events).code == Ok
    ensures RunSpec(setup, events).results.judgeResult in {TLE, MLE, RE}
    ensures RunSpec(setup, events).results.judgeResult == TLE <==> signal in {SIGALRM, SIGXCPU}
    ensures RunSpec(setup, events).results.judgeResult == MLE <==>
      signal == SIGSEGV && StoredMemory(setup, events[0].usage) > setup.condition.memoryLimit
    ensures RunSpec(setup, events).results.signumResult == signal
  {
    StatusRoundTrip(Signaled(signal, core));
  }

  /** Tracing a well-behaved child gives the results of just waiting for its exit. */
  lemma TracedExitAgrees(setup: Setup, events: seq<WaitEvent>, n: nat)
    requires CleanExitAt(setup, events, n)
    ensures RunSpec(Traced(setup, true), events) == RunSpec(Traced(setup, false), events[n..])
  {
    FirstStopUnique(Traced(setup, true), events, 0, n);
    assert events[n..][0] == events[n];
  }

  function Traced(setup: Setup, trace: bool): Setup {
    setup.(condition := setup.condition.(trace := trace))
  }

  /** The event that decides a run. */
  function Decisive(setup: Setup, events: seq<WaitEvent>): WaitEvent
    requires RunSpec(setup, events).Finished?
  {
    if setup.condition.trace then events[FirstStop(setup, events, 0)] else events[0]
  }

  /** The reported time is the deciding event's user time in whole milliseconds, when that fits. */
  lemma ReportedTime(setup: Setup, events: seq<WaitEvent>)
    requires RunSpec(setup, events).Finished?
    ensures var usage := Decisive(setup, events).usage;
      var micros := usage.utimeSec * 1_000_000 + usage.utimeUsec;
      micros < TWO_32 * 1000 ==> RunSpec(setup, events).results.timeUsed == micros / 1000
  {
    var usage := Decisive(setup, events).usage;
    MillisOfMicros(usage);
    WithinRange(UserMillis(usage));
    TimeIsStored(setup, events);
  }

  lemma TimeIsStored(setup: Setup, events: seq<WaitEvent>)
    requires RunSpec(setup, events).Finished?
    ensures RunSpec(setup, events).results.timeUsed == StoredTime(Decisive(setup, events).usage)
  {
  }

  lemma MillisOfMicros(usage: Rusage)
    ensures (usage.utimeSec * 1_000_000 + usage.utimeUsec) / 1000 == UserMillis(usage)
  {
  }

  /**
   The reported memory is the deciding event's, less the allowance, which a child stopped at a
   forbidden system call is not granted.
   */
  lemma ReportedMemory(setup: Setup, events: seq<WaitEvent>)
    requires RunSpec(setup, events).Finished?
    ensures var e, memory := Decisive(setup, events), RunSpec(setup, events).results.memoryUsed;
      var touched := e.usage.minflt * setup.pageKb;
      var granted := if setup.condition.trace && TrapStop(e) then 0 else setup.condition.memoryAdd;
      granted <= touched < granted + TWO_32 ==> memory == touched - granted
  {
    var e := Decisive(setup, events);
    WithinRange(TouchedKb(setup, e.usage));
    WithinRange(TouchedKb(setup, e.usage) - setup.condition.memoryAdd);
  }

  lemma WithinRange(x: int)
    ensures 0 <= x < TWO_32 ==> ToUint32(x) == x
  {
  }

  // ---------- reports, from the kernel's numbers ----------

  /** The first `n` events are traps (signal 5), all but the first of them at a permitted call. */
  ghost predicate LetOn(setup: Setup, events: seq<WaitEvent>, n: nat)
    requires n <= |events|
  {
    forall i | 0 <= i < n ::
      && events[i].status % 128 != 0 && events[i].status / 256 == 5
      && (i > 0 ==> ToInt32(events[i].origRax) in setup.callLimit)
  }

  lemma LetOnPasses(setup: Setup, events: seq<WaitEvent>, n: nat)
    requires n < |events| && LetOn(setup, events, n) && !Passes(setup, events, n)
    ensures FirstStop(setup, events, 0) == n
  {
    forall i | 0 <= i < n ensures Passes(setup, events, i) {
    }
    FirstStopUnique(setup, events, 0, n);
  }

  /** The verdict that signal number `signal` brings, given whether memory is over its limit. */
  function VerdictOfSignal(signal: int, over: bool): JudgeResult {
    if signal == 14 || signal == 24 then TLE
    else if signal == 11 && over then MLE
    else RE
  }

  /**
   A run that ends by an exit, traced or not: whole milliseconds of user time and touched kilobytes
   less the allowance, in 32 bits, and the verdict of the limits, time first.  An untraced stop, which
   the kernel does not report here, would count as an exit.
   */
  lemma ExitReport(setup: Setup, events: seq<WaitEvent>, n: nat)
    requires n < |events|
    requires if setup.condition.trace then LetOn(setup, events, n) && events[n].status % 128 == 0
             else n == 0 && events[n].status % 128 in {0, 127}
    ensures var c, usage := setup.condition, events[n].usage;
      var millis := (usage.utimeSec * 1000 + usage.utimeUsec / 1000) % 0x1_0000_0000;
      var kilobytes := (usage.minflt * setup.pageKb - c.memoryAdd) % 0x1_0000_0000;
      var verdict := if millis > c.timeLimit then TLE else if kilobytes > c.memoryLimit then MLE else AC;
      RunSpec(setup, events) == Finished(Ok, Results(verdict, millis, kilobytes, -1, 0, ""))
  {
    if setup.condition.trace {
      LetOnPasses(setup, events, n);
    }
  }

  /** An untraced run that a signal ends. */
  lemma KilledReport(setup: Setup, events: seq<WaitEvent>)
    requires !setup.condition.trace && events != [] && 0 < events[0].status % 128 < 127
    ensures var c, usage, signal := setup.condition, events[0].usage, events[0].status % 128;
      var millis := (usage.utimeSec * 1000 + usage.utimeUsec / 1000) % 0x1_0000_0000;
      var kilobytes := (usage.minflt * setup.pageKb - c.memoryAdd) % 0x1_0000_0000;
      var verdict := VerdictOfSignal(signal, kilobytes > c.memoryLimit);
      RunSpec(setup, events) == Finished(Ok, Results(verdict, millis, kilobytes, signal, 0, ""))
  {
  }

  /** A traced run that something else than an exit or a trap ends; for a signal death the signal shown is 0. */
  lemma StoppedReport(setup: Setup, events: seq<WaitEvent>, n: nat)
    requires setup.condition.trace && n < |events| && LetOn(setup, events, n)
    requires events[n].status % 128 != 0 && events[n].status / 256 != 5
    ensures var c, usage, signal := setup.condition, events[n].usage, events[n].status / 256;
      var millis := (usage.utimeSec * 1000 + usage.utimeUsec / 1000) % 0x1_0000_0000;
      var kilobytes := (usage.minflt * setup.pageKb - c.memoryAdd) % 0x1_0000_0000;
      var verdict := VerdictOfSignal(signal, kilobytes > c.memoryLimit);
      RunSpec(setup, events) == Finished(Error, Results(verdict, millis, kilobytes, signal, 0, ""))
  {
    LetOnPasses(setup, events, n);
  }

  /** A traced run that a forbidden call ends; its memory is not reduced by the allowance. */
  lemma ForbiddenReport(setup: Setup, events: seq<WaitEvent>, n: nat)
    requires setup.condition.trace && 0 < n < |events| && LetOn(setup, events, n)
    requires events[n].status % 128 != 0 && events[n].status / 256 == 5
    requires ToInt32(events[n].origRax) !in setup.callLimit
    ensures var usage := events[n].usage;
      var millis := (usage.utimeSec * 1000 + usage.utimeUsec / 1000) % 0x1_0000_0000;
      var kilobytes := usage.minflt * setup.pageKb % 0x1_0000_0000;
      RunSpec(setup, events) == Finished(Error, Results(RE, millis, kilobytes, -1, 0, ""))
  {
    LetOnPasses(setup, events, n);
  }

  /** A run is still waiting exactly when nothing has ended it. */
  lemma BlockedIff(setup: Setup, events: seq<WaitEvent>)
    ensures RunSpec(setup, events) == Blocked <==>
      if setup.condition.trace then LetOn(setup, events, |events|) else events == []
  {
    if setup.condition.trace {
      var n := FirstStop(setup, events, 0);
      forall i | 0 <= i < |events|
        ensures Passes(setup, events, i) <==>
          && events[i].status % 128 != 0 && events[i].status / 256 == 5
          && (i > 0 ==> ToInt32(events[i].origRax) in setup.callLimit)
      {
      }
    }
  }

  // ---------- limits ----------

  /** The verdict on a normal exit with this usage and these limits. */
  function ExitVerdict(setup: Setup, usage: Rusage): JudgeResult {
    LimitVerdict(setup, StoredTime(usage), StoredMemory(setup, usage))
  }

  function WithTimeLimit(setup: Setup, limit: uint32): Setup {
    setup.(condition := setup.condition.(timeLimit := limit))
  }

  function WithMemoryLimit(setup: Setup, limit: uint32): Setup {
    setup.(condition := setup.condition.(memoryLimit := limit))
  }

  /** The time verdict is right about this usage: over by a whole millisecond, and only then. */
  ghost predicate TimeJudgedRight(setup: Setup, usage: Rusage) {
    ExitVerdict(setup, usage) == TLE <==>
    usage.utimeSec * 1_000_000 + usage.utimeUsec >= (setup.condition.timeLimit + 1) * 1000
  }

  ghost predicate TimeAlwaysRight(setup: Setup, usage: Rusage) {
    forall limit: uint32 :: TimeJudgedRight(WithTimeLimit(setup, limit), usage)
  }

  /** The time verdict is right under every limit exactly when the milliseconds fit 32 bits. */
  lemma TimeVerdictIff(setup: Setup, usage: Rusage)
    ensures TimeAlwaysRight(setup, usage) <==> usage.utimeSec * 1000 + usage.utimeUsec / 1000 < TWO_32
  {
    if UserMillis(usage) < TWO_32 {
      forall limit: uint32 ensures TimeJudgedRight(WithTimeLimit(setup, limit), usage) {
        assert StoredTime(usage) == UserMillis(usage);
        MillisOfMicros(usage);
      }
    } else {
      assert !TimeJudgedRight(WithTimeLimit(setup, 0xffff_ffff), usage);
    }
  }

  ghost predicate MemoryJudgedRight(setup: Setup, usage: Rusage) {
    ExitVerdict(setup, usage) == MLE <==>
    usage.minflt * setup.pageKb > setup.condition.memoryLimit + setup.condition.memoryAdd
  }

  ghost predicate MemoryAlwaysRight(setup: Setup, usage: Rusage) {
    forall limit: uint32 :: MemoryJudgedRight(WithMemoryLimit(setup, limit), usage)
  }

  /**
   Unless time already ran out, the memory verdict is right under every limit exactly when the
   touched memory is at least the runtime's allowance and exceeds it by less than 4 TB.
   */
  lemma MemoryVerdictIff(setup: Setup, usage: Rusage)
    requires StoredTime(usage) <= setup.condition.timeLimit
    ensures MemoryAlwaysRight(setup, usage) <==>
      setup.condition.memoryAdd <= usage.minflt * setup.pageKb < setup.condition.memoryAdd + TWO_32
  {
    var add := setup.condition.memoryAdd;
    var touched := TouchedKb(setup, usage);
    forall limit: uint32
      ensures ExitVerdict(WithMemoryLimit(setup, limit), usage) == MLE <==> StoredMemory(setup, usage) > limit
    {
    }
    if add <= touched < add + TWO_32 {
      assert StoredMemory(setup, usage) == touched - add;
      forall limit: uint32 ensures MemoryJudgedRight(WithMemoryLimit(setup, limit), usage) {
      }
    } else if touched < add {
      BelowAllowance(setup, usage);
      assert !MemoryJudgedRight(WithMemoryLimit(setup, 0), usage);
    } else {
      assert !MemoryJudgedRight(WithMemoryLimit(setup, 0xffff_ffff), usage);
    }
  }

  /** Below the allowance the stored memory is the deficit wrapped around, a huge number. */
  lemma BelowAllowance(setup: Setup, usage: Rusage)
    requires usage.minflt * setup.pageKb < setup.condition.memoryAdd
    ensures StoredMemory(setup, usage) == TWO_32 - (setup.condition.memoryAdd - usage.minflt * setup.pageKb)
  {
  }
}
