/** The verdict on a compiled submission, over any number of tests (judgeworker.cc, processTask). */
module Verdict {
  import opened Protocol
  import opened Judge
  import opened Judger
  import opened Os
  import C = Checker

  /** A test as the loop meets it; `Missing` when its files cannot be opened. */
  datatype Case =
    | Missing
    | Case(events: seq<WaitEvent>, user: FileView, right: FileView)

  /** `Stuck`: never answers. `Exits`: the process ends. */
  datatype Outcome =
    | Stuck
    | Exits
    | Done(results: Results)

  /** The loop over the tests from test `i` on; a test without files has no step. */
  function Judged(steps: seq<Option<Step>>, results: Results, i: nat): Outcome
    requires i <= |steps|
    decreases |steps| - i
  {
    if i == |steps| then Done(results)
    else
      match steps[i]
      case None => Exits
      case Some(Hang) => Stuck
      case Some(Halt(r)) => Done(r)
      case Some(Next(r)) => Judged(steps, r, i + 1)
  }

  function StepOf(setup: Setup, c: Case): Option<Step> {
    match c
    case Missing => None
    case Case(events, user, right) => Some(ExecuteSpec(setup, events, user, right))
  }

  function Steps(setup: Setup, cases: seq<Case>): (steps: seq<Option<Step>>)
    ensures |steps| == |cases|
    ensures forall k | 0 <= k < |cases| :: steps[k] == StepOf(setup, cases[k])
  {
    seq(|cases|, k requires 0 <= k < |cases| => StepOf(setup, cases[k]))
  }

  function Final(setup: Setup, cases: seq<Case>): Outcome {
    Judged(Steps(setup, cases), NO_RESULTS, 0)
  }

  // ---------- the loop as a statement about tests ----------

  predicate GoesOn(step: Option<Step>) {
    step.Some? && step.value.Next?
  }

  /** Test `n` is the first one that does not go on; `|steps|` when all do. */
  ghost predicate StopsAt(steps: seq<Option<Step>>, n: nat) {
    && n <= |steps|
    && (forall k | 0 <= k < n :: GoesOn(steps[k]))
    && (n < |steps| ==> !GoesOn(steps[n]))
  }

  lemma {:induction false} StopExists(steps: seq<Option<Step>>, i: nat) returns (n: nat)
    requires i <= |steps| && forall k | 0 <= k < i :: GoesOn(steps[k])
    ensures StopsAt(steps, n)
    decreases |steps| - i
  {
    if i == |steps| || !GoesOn(steps[i]) {
      n := i;
    } else {
      n := StopExists(steps, i + 1);
    }
  }

  /**
   The first test that does not go on decides: it hangs, lacks its files, or gives its results.
   When every test goes on the last one's results stand.  What earlier tests found is gone.
   */
  lemma {:induction false} StopDecides(steps: seq<Option<Step>>, results: Results, i: nat, n: nat)
    requires StopsAt(steps, n) && i <= n
    ensures n < |steps| && steps[n].None? ==> Judged(steps, results, i) == Exits
    ensures n < |steps| && steps[n].Some? && steps[n].value.Hang? ==> Judged(steps, results, i) == Stuck
    ensures n < |steps| && steps[n].Some? && steps[n].value.Halt? ==>
      Judged(steps, results, i) == Done(steps[n].value.results)
    ensures n == |steps| && i < n ==> Judged(steps, results, i) == Done(steps[n - 1].value.results)
    ensures n == |steps| && i == n ==> Judged(steps, results, i) == Done(results)
    decreases n - i
  {
    if i < n {
      assert GoesOn(steps[i]);
      StopDecides(steps, steps[i].value.results, i + 1, n);
    }
  }

  /** With no tests nothing was judged. */
  lemma NoTests(setup: Setup)
    ensures Final(setup, []) == Done(NO_RESULTS) && NO_RESULTS.judgeResult == UKE
  {
  }

  // ---------- one test ----------

  ghost predicate RunOk(setup: Setup, c: Case) {
    c.Case? && RunSpec(setup, c.events).Finished? && RunSpec(setup, c.events).code == Ok
  }

  ghost predicate CheckOk(c: Case) {
    c.Case? && C.CheckSpec(c.user, c.right).0 == Ok
  }

  function OwnResults(setup: Setup, c: Case): Results
    requires c.Case? && RunSpec(setup, c.events).Finished?
  {
    RunSpec(setup, c.events).results
  }

  /** The judging loop goes on past a test exactly when its run and its check both returned kOk. */
  lemma GoesOnIff(setup: Setup, c: Case)
    ensures GoesOn(StepOf(setup, c)) <==> RunOk(setup, c) && CheckOk(c)
    ensures GoesOn(StepOf(setup, c)) ==> StepOf(setup, c) == Some(Next(OwnResults(setup, c)))
  {
    if c.Case? && RunSpec(setup, c.events).Finished? {
      C.CodeMatchesVerdict(c.user, c.right);
    }
  }

  /**
   A test's results are its run's, except that the checker's verdict replaces the run's exactly
   when the run was kOk and the checker found a fault.
   */
  lemma StepResults(setup: Setup, c: Case)
    requires c.Case? && RunSpec(setup, c.events).Finished?
    ensures StepOf(setup, c).Some? && !StepOf(setup, c).value.Hang?
    ensures var own := OwnResults(setup, c);
      StepOf(setup, c).value.results ==
        own.(judgeResult := if RunOk(setup, c) && !CheckOk(c) then C.Verdict(c.user, c.right) else own.judgeResult)
  {
    ErrorVerdicts(setup, c.events);
    C.CodeMatchesVerdict(c.user, c.right);
  }

  /** A test without files ends the process, and one whose run does not end hangs. */
  lemma StepWithoutResults(setup: Setup, c: Case)
    ensures StepOf(setup, c) == None <==> c.Missing?
    ensures StepOf(setup, c) == Some(Hang) <==> c.Case? && RunSpec(setup, c.events).Blocked?
  {
  }

  /** The verdict on a test that halts is never Accepted. */
  lemma HaltIsNotAccepted(setup: Setup, c: Case)
    requires c.Case? && StepOf(setup, c).value.Halt?
    ensures StepOf(setup, c).value.results.judgeResult in {TLE, MLE, RE, OLE, UKE, PE, WA}
  {
    ErrorVerdicts(setup, c.events);
    C.CodeMatchesVerdict(c.user, c.right);
  }

  // ---------- acceptance ----------

  ghost predicate Accepted(setup: Setup, cases: seq<Case>) {
    Final(setup, cases).Done? && Final(setup, cases).results.judgeResult == AC
  }

  ghost predicate AllPassed(setup: Setup, cases: seq<Case>) {
    forall k | 0 <= k < |cases| :: RunOk(setup, cases[k]) && CheckOk(cases[k])
  }

  /** There is a test, all runs and checks returned kOk, and the last run's own verdict was Accepted. */
  ghost predicate PassedAndEndedWell(setup: Setup, cases: seq<Case>) {
    && |cases| >= 1
    && AllPassed(setup, cases)
    && OwnResults(setup, cases[|cases| - 1]).judgeResult == AC
  }

  /**
   Accepted comes out exactly when there is a test, every run returned kOk, every checker
   returned kOk, and the last test's own run was within its limits.
   */
  lemma AcceptedIff(setup: Setup, cases: seq<Case>)
    ensures Accepted(setup, cases) <==> PassedAndEndedWell(setup, cases)
  {
    var steps := Steps(setup, cases);
    forall k | 0 <= k < |cases|
      ensures GoesOn(steps[k]) <==> RunOk(setup, cases[k]) && CheckOk(cases[k])
    {
      GoesOnIff(setup, cases[k]);
    }
    var n := StopExists(steps, 0);
    StopDecides(steps, NO_RESULTS, 0, n);
    if n < |cases| {
      assert !AllPassed(setup, cases);
      if steps[n].Some? && steps[n].value.Halt? {
        HaltIsNotAccepted(setup, cases[n]);
      }
    } else if n > 0 {
      assert AllPassed(setup, cases);
      GoesOnIff(setup, cases[n - 1]);
    }
  }

  // ---------- acceptance, from the kernel's numbers and the files ----------

  /** Event `n` is where a run ends that returns kOk. */
  ghost predicate EndsAt(setup: Setup, events: seq<WaitEvent>, n: nat) {
    && n < |events|
    && if setup.condition.trace then LetOn(setup, events, n) && events[n].status % 128 == 0 else n == 0
  }

  /** That event is an exit and shows no more than the limits, in 32 bits. */
  ghost predicate EndsWell(setup: Setup, e: WaitEvent) {
    && e.status % 128 in {0, 127}
    && (e.usage.utimeSec * 1000 + e.usage.utimeUsec / 1000) % 0x1_0000_0000 <= setup.condition.timeLimit
    && (e.usage.minflt * setup.pageKb - setup.condition.memoryAdd) % 0x1_0000_0000 <= setup.condition.memoryLimit
  }

  lemma OneEnd(setup: Setup, events: seq<WaitEvent>, m: nat, n: nat)
    requires EndsAt(setup, events, m) && EndsAt(setup, events, n)
    ensures m == n
  {
  }

  lemma EndVerdict(setup: Setup, events: seq<WaitEvent>, n: nat)
    requires EndsAt(setup, events, n)
    ensures RunSpec(setup, events).Finished? && RunSpec(setup, events).code == Ok
    ensures RunSpec(setup, events).results.judgeResult == AC <==> EndsWell(setup, events[n])
  {
    if events[n].status % 128 in {0, 127} {
      ExitReport(setup, events, n);
    } else {
      KilledReport(setup, events);
    }
  }

  lemma RunOkEnds(setup: Setup, events: seq<WaitEvent>) returns (n: nat)
    requires RunSpec(setup, events).Finished? && RunSpec(setup, events).code == Ok
    ensures EndsAt(setup, events, n)
  {
    n := if setup.condition.trace then FirstStop(setup, events, 0) else 0;
    forall i | 0 <= i < n
      ensures events[i].status % 128 != 0 && events[i].status / 256 == 5
      ensures i > 0 ==> ToInt32(events[i].origRax) in setup.callLimit
    {
      assert Passes(setup, events, i);
    }
  }

  /** A test passes: its files exist, its run ended as it should, and its answer is accepted. */
  ghost predicate TestPasses(setup: Setup, c: Case) {
    c.Case? && (exists n: nat :: EndsAt(setup, c.events, n)) && C.Verdict(c.user, c.right) == AC
  }

  /** Wherever the run may end, it ends well; there is one such place at most. */
  ghost predicate RunsWell(setup: Setup, events: seq<WaitEvent>) {
    forall n: nat | EndsAt(setup, events, n) :: EndsWell(setup, events[n])
  }

  /** And its run's own verdict is accepted too. */
  ghost predicate TestPassesWell(setup: Setup, c: Case) {
    TestPasses(setup, c) && RunsWell(setup, c.events)
  }

  lemma TestPassesIff(setup: Setup, c: Case)
    ensures TestPasses(setup, c) <==> RunOk(setup, c) && CheckOk(c)
    ensures TestPassesWell(setup, c) <==> RunOk(setup, c) && CheckOk(c) && OwnResults(setup, c).judgeResult == AC
  {
    if c.Case? {
      C.CodeMatchesVerdict(c.user, c.right);
      if RunOk(setup, c) {
        var n := RunOkEnds(setup, c.events);
      }
      forall n: nat | EndsAt(setup, c.events, n)
        ensures RunOk(setup, c) && (OwnResults(setup, c).judgeResult == AC <==> EndsWell(setup, c.events[n]))
      {
        EndVerdict(setup, c.events, n);
      }
    }
  }

  /** Accepted exactly when there is a test, all tests pass, and the last run met its limits. */
  lemma AcceptedWhen(setup: Setup, cases: seq<Case>)
    ensures Accepted(setup, cases) <==>
      && cases != []
      && (forall k | 0 <= k < |cases| :: TestPasses(setup, cases[k]))
      && TestPassesWell(setup, cases[|cases| - 1])
  {
    AcceptedIff(setup, cases);
    forall k | 0 <= k < |cases| ensures TestPasses(setup, cases[k]) <==> RunOk(setup, cases[k]) && CheckOk(cases[k]) {
      TestPassesIff(setup, cases[k]);
    }
    if cases != [] {
      TestPassesIff(setup, cases[|cases| - 1]);
    }
  }

  // ---------- the limits of earlier tests ----------

  ghost predicate AllWithinLimits(setup: Setup, cases: seq<Case>) {
    forall k | 0 <= k < |cases| :: RunOk(setup, cases[k]) && OwnResults(setup, cases[k]).judgeResult == AC
  }

  /** If the submission is accepted, every run was within its limits. */
  ghost predicate CoversLimits(setup: Setup, cases: seq<Case>) {
    Accepted(setup, cases) ==> AllWithinLimits(setup, cases)
  }

  const SAMPLE_ANSWER := FileView([65], true, true)

  lemma SampleChecked()
    ensures C.CheckSpec(SAMPLE_ANSWER, SAMPLE_ANSWER).0 == Ok
  {
    C.EqualIsAccepted(SAMPLE_ANSWER, SAMPLE_ANSWER);
    C.CodeMatchesVerdict(SAMPLE_ANSWER, SAMPLE_ANSWER);
  }

  /** A test whose answer is right, with the given events of its run. */
  lemma RightAnswer(events: seq<WaitEvent>) returns (c: Case)
    ensures c.Case? && c.events == events && CheckOk(c)
  {
    SampleChecked();
    c := Case(events, SAMPLE_ANSWER, SAMPLE_ANSWER);
  }

  /** A child that exits at once gets the verdict of the limits, traced or not. */
  lemma ExitPasses(setup: Setup, c: Case)
    requires c.Case? && c.events != [] && WIfExited(c.events[0].status)
    ensures RunOk(setup, c) && OwnResults(setup, c).judgeResult == ExitVerdict(setup, c.events[0].usage)
  {
    if setup.condition.trace {
      CleanExitFinishes(setup, c.events, 0);
    }
  }

  /**
   Whatever the first run's verdict was, as long as it returned kOk: some submission of `n` tests
   that starts with it is accepted, if a run can be within the limits at all.
   */
  lemma FirstIsForgotten(setup: Setup, first: seq<WaitEvent>, usage: Rusage, n: nat) returns (cases: seq<Case>)
    requires n >= 2 && RunSpec(setup, first).Finished? && RunSpec(setup, first).code == Ok
    requires ExitVerdict(setup, usage) == AC
    ensures |cases| == n && cases[0].Case? && cases[0].events == first
    ensures Accepted(setup, cases)
  {
    var bad := RightAnswer(first);
    var good := RightAnswer([WaitEvent(0, usage, 0)]);
    ExitPasses(setup, good);
    cases := seq(n, k => if k == 0 then bad else good);
    assert AllPassed(setup, cases);
    AcceptedIff(setup, cases);
  }

  /** No usage at all is within the limits. */
  ghost predicate Hopeless(setup: Setup) {
    forall usage :: ExitVerdict(setup, usage) != AC
  }

  /** Every usage is within the limits. */
  ghost predicate Boundless(setup: Setup) {
    forall usage :: ExitVerdict(setup, usage) == AC
  }

  /** A traced run that was kOk exited, and its verdict is that of the limits. */
  lemma TracedVerdict(setup: Setup, c: Case)
    requires setup.condition.trace && RunOk(setup, c)
    ensures OwnResults(setup, c).judgeResult == ExitVerdict(setup, Decisive(setup, c.events).usage)
    ensures !WIfSignaled(Decisive(setup, c.events).status)
  {
    TraceOkIff(setup, c.events);
    var n: nat :| CleanExitAt(setup, c.events, n);
    CleanExitFinishes(setup, c.events, n);
    FirstStopUnique(setup, c.events, 0, n);
  }

  /** A run whose own verdict is Accepted shows a usage within the limits, and no signal ended it. */
  lemma GoodVerdict(setup: Setup, c: Case)
    requires RunOk(setup, c) && OwnResults(setup, c).judgeResult == AC
    ensures ExitVerdict(setup, Decisive(setup, c.events).usage) == AC
    ensures !WIfSignaled(Decisive(setup, c.events).status)
  {
    if setup.condition.trace {
      TracedVerdict(setup, c);
    }
  }

  /** Some run returns kOk with a verdict of its own other than Accepted. */
  lemma BadRun(setup: Setup) returns (events: seq<WaitEvent>)
    requires !(setup.condition.trace && Boundless(setup))
    ensures RunSpec(setup, events).Finished? && RunSpec(setup, events).code == Ok
    ensures RunSpec(setup, events).results.judgeResult != AC
  {
    if setup.condition.trace {
      var usage :| ExitVerdict(setup, usage) != AC;
      events := [WaitEvent(0, usage, 0)];
      CleanExitFinishes(setup, events, 0);
    } else {
      events := KilledRun(setup);
    }
  }

  /** An untraced run that SIGKILL ended. */
  lemma KilledRun(setup: Setup) returns (events: seq<WaitEvent>)
    requires !setup.condition.trace
    ensures RunSpec(setup, events).Finished? && RunSpec(setup, events).code == Ok
    ensures RunSpec(setup, events).results.judgeResult != AC && WIfSignaled(Decisive(setup, events).status)
  {
    events := [WaitEvent(Signaled(9, false).Status(), Rusage(0, 0, 0), 0)];
    StatusRoundTrip(Signaled(9, false));
    UntracedSignalIsOk(setup, events, 9, false);
  }

  lemma LimitsCovered(setup: Setup, cases: seq<Case>)
    requires |cases| <= 1 || Hopeless(setup) || (setup.condition.trace && Boundless(setup))
    ensures CoversLimits(setup, cases)
  {
    if Accepted(setup, cases) {
      AcceptedIff(setup, cases);
      GoodVerdict(setup, cases[|cases| - 1]);
      forall k | 0 <= k < |cases|
        ensures RunOk(setup, cases[k]) && OwnResults(setup, cases[k]).judgeResult == AC
      {
        if setup.condition.trace {
          TracedVerdict(setup, cases[k]);
        }
        assert |cases| == 1 ==> k == |cases| - 1;
      }
    }
  }

  /**
   With given limits, acceptance of `n` tests says that every run was within them exactly when there
   is at most one test, nothing can be accepted, or runs are traced and nothing can exceed the limits.
   Otherwise a later correct test overwrites an earlier verdict whose output was right.
   */
  lemma CoversLimitsIff(setup: Setup, n: nat)
    ensures (forall cases | |cases| == n :: CoversLimits(setup, cases)) <==>
      n <= 1 || Hopeless(setup) || (setup.condition.trace && Boundless(setup))
  {
    if n <= 1 || Hopeless(setup) || (setup.condition.trace && Boundless(setup)) {
      forall cases | |cases| == n ensures CoversLimits(setup, cases) {
        LimitsCovered(setup, cases);
      }
    } else {
      var usage :| ExitVerdict(setup, usage) == AC;
      var first := BadRun(setup);
      var cases := FirstIsForgotten(setup, first, usage, n);
      assert !AllWithinLimits(setup, cases) by {
        assert OwnResults(setup, cases[0]).judgeResult != AC;
      }
      assert !CoversLimits(setup, cases);
    }
  }

  /** A child that touched no memory and took the given time. */
  lemma TimedUsage(millis: nat) returns (usage: Rusage)
    ensures UserMillis(usage) == millis && usage.minflt == 0
  {
    usage := Rusage(millis / 1000, millis % 1000 * 1000, 0);
  }

  lemma TimedVerdict(setup: Setup, usage: Rusage)
    requires setup.condition.memoryAdd == 0 && usage.minflt == 0 && UserMillis(usage) < TWO_32
    ensures ExitVerdict(setup, usage) == if UserMillis(usage) > setup.condition.timeLimit then TLE else AC
  {
    assert TouchedKb(setup, usage) == 0;
    WithinRange(0);
    WithinRange(UserMillis(usage));
  }

  /** Limits that some usage meets and some other does not. */
  lemma OrdinaryLimits(setup: Setup)
    requires setup.condition.memoryAdd == 0 && setup.condition.timeLimit < 0xffff_ffff
    ensures !Hopeless(setup) && !Boundless(setup)
  {
    var fast := TimedUsage(0);
    var slow := TimedUsage(setup.condition.timeLimit + 1);
    TimedVerdict(setup, fast);
    TimedVerdict(setup, slow);
  }

  /** Under all limits at once it does exactly for tasks of at most one test. */
  lemma AcceptanceCoversLimitsIff(n: nat)
    ensures (forall setup, cases | |cases| == n :: CoversLimits(setup, cases)) <==> n <= 1
  {
    if n <= 1 {
      forall setup, cases | |cases| == n ensures CoversLimits(setup, cases) {
        LimitsCovered(setup, cases);
      }
    } else {
      var setup := Setup(ExecuteCondition(1000, 65536, true, 0), {}, 4);
      OrdinaryLimits(setup);
      CoversLimitsIff(setup, n);
    }
  }

  // ---------- the ends of earlier runs ----------

  /** The run ended, and no signal ended it. */
  ghost predicate NotKilled(setup: Setup, c: Case) {
    c.Case? && RunSpec(setup, c.events).Finished? && !WIfSignaled(Decisive(setup, c.events).status)
  }

  /** If the submission is accepted, none of its runs was killed. */
  ghost predicate CoversEnds(setup: Setup, cases: seq<Case>) {
    Accepted(setup, cases) ==> forall k | 0 <= k < |cases| :: NotKilled(setup, cases[k])
  }

  lemma EndsCovered(setup: Setup, cases: seq<Case>)
    requires setup.condition.trace || |cases| <= 1 || Hopeless(setup)
    ensures CoversEnds(setup, cases)
  {
    if Accepted(setup, cases) {
      AcceptedIff(setup, cases);
      GoodVerdict(setup, cases[|cases| - 1]);
      forall k | 0 <= k < |cases| ensures NotKilled(setup, cases[k]) {
        if setup.condition.trace {
          TracedVerdict(setup, cases[k]);
        }
        assert |cases| == 1 ==> k == |cases| - 1;
      }
    }
  }

  /**
   Acceptance says that no run was killed exactly where runs are traced, where there is at most one
   test, or where nothing can be accepted.  Otherwise a killed run with the right output is forgotten.
   */
  lemma CoversEndsIff(setup: Setup, n: nat)
    ensures (forall cases | |cases| == n :: CoversEnds(setup, cases)) <==>
      setup.condition.trace || n <= 1 || Hopeless(setup)
  {
    if setup.condition.trace || n <= 1 || Hopeless(setup) {
      forall cases | |cases| == n ensures CoversEnds(setup, cases) {
        EndsCovered(setup, cases);
      }
    } else {
      var usage :| ExitVerdict(setup, usage) == AC;
      var first := KilledRun(setup);
      var cases := FirstIsForgotten(setup, first, usage, n);
      assert !NotKilled(setup, cases[0]);
      assert !CoversEnds(setup, cases);
    }
  }

  /** What acceptance does say: every answer was accepted by the checker, and every run ended. */
  lemma AcceptedAnswers(setup: Setup, cases: seq<Case>, k: nat)
    requires Accepted(setup, cases) && k < |cases|
    ensures cases[k].Case? && C.Verdict(cases[k].user, cases[k].right) == AC
    ensures setup.condition.trace ==> exists n: nat :: CleanExitAt(setup, cases[k].events, n)
  {
    AcceptedIff(setup, cases);
    C.CodeMatchesVerdict(cases[k].user, cases[k].right);
    if setup.condition.trace {
      TraceOkIff(setup, cases[k].events);
    }
  }
}
