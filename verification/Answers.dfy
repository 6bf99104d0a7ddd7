/**
 What the worker answers, in terms of the request, the test files and the kernel's reports
 (judgeworker.cc, judger.cc).  Paths, languages and results are written out.
 */
module Answers {
  import opened Protocol
  import opened Judge
  import opened Judger
  import opened Os
  import opened Paths
  import opened Verdict
  import opened WorkDir
  import opened Worker
  import C = Checker

  // ---------- a request's tests ----------

  /** C, C++, Python, Java and Ruby. */
  predicate Offered(codeType: uint32) {
    codeType == 0 || codeType == 1 || codeType == 2 || codeType == 3 || codeType == 7
  }

  /** The limits and rules of a request; Python and Ruby are excused 2 MB, Java 14 MB. */
  lemma SetupIs(task: Task)
    ensures KnownType(task.configure.codeType) <==> Offered(task.configure.codeType)
    ensures var c := task.configure;
      var allowance := if c.codeType == 2 || c.codeType == 7 then 2048 else if c.codeType == 3 then 14336 else 0;
      SetupOf(task) ==
        Setup(ExecuteCondition(c.timeLimit, c.memoryLimit, c.trace, allowance), task.callLimit, task.pageKb)
  {
  }

  function InputFile(programDir: string, task: Task, num: nat): string {
    programDir + "/" + Decimal(task.configure.programId) + "/in/" + Decimal(num)
  }

  function AnswerFile(programDir: string, task: Task, num: nat): string {
    programDir + "/" + Decimal(task.configure.programId) + "/out/" + Decimal(num)
  }

  predicate HasFiles(programDir: string, tests: map<string, FileView>, task: Task, num: nat) {
    InputFile(programDir, task, num) in tests && AnswerFile(programDir, task, num) in tests
  }

  /** Test `num` needs both of its files, and compares what its run wrote with the answer file. */
  lemma CaseIs(programDir: string, tests: map<string, FileView>, task: Task, num: nat)
    requires num < |task.behaviours|
    ensures var b, c := task.behaviours[num], CaseOf(programDir, tests, task, num);
      && (c.Case? <==> HasFiles(programDir, tests, task, num))
      && (c.Case? ==> c.events == b.events && c.user == FileView(b.output, b.statOk, b.mapOk)
                      && c.right == tests[AnswerFile(programDir, task, num)])
  {
    PathFormats(programDir, "", task.configure.programId, 0, num);
  }

  // ---------- the answer to a submission that compiled ----------

  /** Test `n` is the first that does not go on; if all do, `n` is their number. */
  ghost predicate Stops(programDir: string, tests: map<string, FileView>, task: Task, n: nat) {
    StopsAt(Steps(SetupOf(task), CasesOf(programDir, tests, task)), n)
  }

  /** A test goes on exactly when it has its files, its run ends as it should and its answer is right. */
  ghost predicate Good(programDir: string, tests: map<string, FileView>, task: Task, k: nat)
    requires k < |task.behaviours|
  {
    var b := task.behaviours[k];
    && HasFiles(programDir, tests, task, k)
    && (exists n: nat :: EndsAt(SetupOf(task), b.events, n))
    && C.Verdict(FileView(b.output, b.statOk, b.mapOk), tests[AnswerFile(programDir, task, k)]) == AC
  }

  lemma GoodIsPassing(programDir: string, tests: map<string, FileView>, task: Task, k: nat)
    requires k < |task.behaviours|
    ensures Good(programDir, tests, task, k) <==>
      TestPasses(SetupOf(task), CaseOf(programDir, tests, task, k))
  {
    CaseIs(programDir, tests, task, k);
  }

  lemma StopsIff(programDir: string, tests: map<string, FileView>, task: Task, n: nat)
    ensures Stops(programDir, tests, task, n) <==>
      && n <= |task.behaviours|
      && (forall k | 0 <= k < n :: Good(programDir, tests, task, k))
      && (n < |task.behaviours| ==> !Good(programDir, tests, task, n))
  {
    var steps := Steps(SetupOf(task), CasesOf(programDir, tests, task));
    forall k | 0 <= k < |task.behaviours| ensures GoesOn(steps[k]) <==> Good(programDir, tests, task, k) {
      var c := CaseOf(programDir, tests, task, k);
      GoodIsPassing(programDir, tests, task, k);
      TestPassesIff(SetupOf(task), c);
      GoesOnIff(SetupOf(task), c);
    }
  }

  /** A test that lacks a file ends the process; a run that does not end leaves the request open. */
  lemma NoAnswer(programDir: string, tests: map<string, FileView>, task: Task, n: nat)
    requires Offered(task.configure.codeType) && task.compilation.Compiled?
    requires Stops(programDir, tests, task, n) && n < |task.behaviours|
    ensures !HasFiles(programDir, tests, task, n) ==> JudgeSpec(programDir, tests, task) == Exit
    ensures HasFiles(programDir, tests, task, n) && RunSpec(SetupOf(task), task.behaviours[n].events).Blocked? ==>
      JudgeSpec(programDir, tests, task) == Unfinished
  {
    var steps := Steps(SetupOf(task), CasesOf(programDir, tests, task));
    CaseIs(programDir, tests, task, n);
    StepWithoutResults(SetupOf(task), CaseOf(programDir, tests, task, n));
    StopDecides(steps, NO_RESULTS, 0, n);
  }

  /** What the run of test `num` reports. */
  function RunReport(task: Task, num: nat): Results
    requires num < |task.behaviours| && RunSpec(SetupOf(task), task.behaviours[num].events).Finished?
  {
    RunSpec(SetupOf(task), task.behaviours[num].events).results
  }

  /**
   The first test that does not go on is answered: its run's own report, under the request's run id,
   with the checker's verdict if the run itself was in order.
   */
  lemma FaultAnswer(programDir: string, tests: map<string, FileView>, task: Task, n: nat)
    requires Offered(task.configure.codeType) && task.compilation.Compiled?
    requires Stops(programDir, tests, task, n) && n < |task.behaviours| && HasFiles(programDir, tests, task, n)
    requires RunSpec(SetupOf(task), task.behaviours[n].events).Finished?
    ensures var b, report := task.behaviours[n], RunReport(task, n);
      var verdict :=
        if RunSpec(SetupOf(task), b.events).code == Ok
        then C.Verdict(FileView(b.output, b.statOk, b.mapOk), tests[AnswerFile(programDir, task, n)])
        else report.judgeResult;
      JudgeSpec(programDir, tests, task) == Answered(
        Results(verdict, report.timeUsed, report.memoryUsed, report.signumResult, task.configure.runId,
                report.compileError))
  {
    var setup, c := SetupOf(task), CaseOf(programDir, tests, task, n);
    var steps := Steps(setup, CasesOf(programDir, tests, task));
    CaseIs(programDir, tests, task, n);
    StepResults(setup, c);
    StopDecides(steps, NO_RESULTS, 0, n);
    FaultVerdict(programDir, tests, task, n);
  }

  /** When the run of the stopping test was in order, its answer was not. */
  lemma FaultVerdict(programDir: string, tests: map<string, FileView>, task: Task, n: nat)
    requires Stops(programDir, tests, task, n) && n < |task.behaviours| && HasFiles(programDir, tests, task, n)
    ensures RunOk(SetupOf(task), CaseOf(programDir, tests, task, n)) ==> !CheckOk(CaseOf(programDir, tests, task, n))
  {
    StopsIff(programDir, tests, task, n);
    GoodIsPassing(programDir, tests, task, n);
    TestPassesIff(SetupOf(task), CaseOf(programDir, tests, task, n));
  }

  /** When all tests go on, the last run's own report is the answer. */
  lemma LastAnswer(programDir: string, tests: map<string, FileView>, task: Task)
    requires Offered(task.configure.codeType) && task.compilation.Compiled? && task.behaviours != []
    requires Stops(programDir, tests, task, |task.behaviours|)
    ensures var n := |task.behaviours| - 1;
      && RunSpec(SetupOf(task), task.behaviours[n].events).Finished?
      && var report := RunReport(task, n);
         JudgeSpec(programDir, tests, task) == Answered(
           Results(report.judgeResult, report.timeUsed, report.memoryUsed, report.signumResult, task.configure.runId,
                   report.compileError))
  {
    var n := |task.behaviours| - 1;
    var setup, c := SetupOf(task), CaseOf(programDir, tests, task, n);
    var steps := Steps(setup, CasesOf(programDir, tests, task));
    CaseIs(programDir, tests, task, n);
    assert GoesOn(steps[n]);
    GoesOnIff(setup, c);
    StopDecides(steps, NO_RESULTS, 0, n + 1);
  }

  /** Without tests nothing was judged. */
  lemma EmptyAnswer(programDir: string, tests: map<string, FileView>, task: Task)
    requires Offered(task.configure.codeType) && task.compilation.Compiled? && task.behaviours == []
    ensures JudgeSpec(programDir, tests, task) == Answered(Results(UKE, 0, 0, -1, task.configure.runId, ""))
  {
    NoTests(SetupOf(task));
    assert CasesOf(programDir, tests, task) == [];
  }

  /** In numbers: all answers right and the last run ended by an exit, here without tracing. */
  lemma ExitAnswer(programDir: string, tests: map<string, FileView>, task: Task, e: WaitEvent)
    requires Offered(task.configure.codeType) && task.compilation.Compiled? && task.behaviours != []
    requires Stops(programDir, tests, task, |task.behaviours|)
    requires !task.configure.trace && task.behaviours[|task.behaviours| - 1].events == [e] && e.status % 128 == 0
    ensures var c := task.configure;
      var allowance := if c.codeType == 2 || c.codeType == 7 then 2048 else if c.codeType == 3 then 14336 else 0;
      var millis := (e.usage.utimeSec * 1000 + e.usage.utimeUsec / 1000) % 0x1_0000_0000;
      var kilobytes := (e.usage.minflt * task.pageKb - allowance) % 0x1_0000_0000;
      var verdict := if millis > c.timeLimit then TLE else if kilobytes > c.memoryLimit then MLE else AC;
      JudgeSpec(programDir, tests, task) == Answered(Results(verdict, millis, kilobytes, -1, c.runId, ""))
  {
    LastAnswer(programDir, tests, task);
    SetupIs(task);
    ExitReport(SetupOf(task), [e], 0);
  }

  /**
   Accepted is answered exactly when the language is offered, compiling succeeded, there is a test,
   every test is good, and the last run's end was an exit within the limits.
   */
  lemma AcceptedWhen(programDir: string, tests: map<string, FileView>, task: Task)
    requires task.compilation.Rejected? ==> task.compilation.verdict != AC
    ensures AnswersAccepted(programDir, tests, task) <==>
      && Offered(task.configure.codeType) && task.compilation.Compiled? && task.behaviours != []
      && (forall k | 0 <= k < |task.behaviours| :: Good(programDir, tests, task, k))
      && RunsWell(SetupOf(task), task.behaviours[|task.behaviours| - 1].events)
  {
    var setup, cases := SetupOf(task), CasesOf(programDir, tests, task);
    if Offered(task.configure.codeType) && task.compilation.Compiled? {
      AnswerIsVerdict(programDir, tests, task);
      Verdict.AcceptedWhen(setup, cases);
      AllGood(programDir, tests, task);
      if task.behaviours != [] {
        CaseIs(programDir, tests, task, |task.behaviours| - 1);
      }
    } else {
      SetupIs(task);
    }
  }

  lemma AnswerIsVerdict(programDir: string, tests: map<string, FileView>, task: Task)
    requires Offered(task.configure.codeType) && task.compilation.Compiled?
    ensures AnswersAccepted(programDir, tests, task) <==>
      Accepted(SetupOf(task), CasesOf(programDir, tests, task))
  {
  }

  lemma AllGood(programDir: string, tests: map<string, FileView>, task: Task)
    ensures (forall k | 0 <= k < |task.behaviours| :: Good(programDir, tests, task, k)) <==>
      forall k | 0 <= k < |task.behaviours| :: TestPasses(SetupOf(task), CasesOf(programDir, tests, task)[k])
  {
    forall k | 0 <= k < |task.behaviours|
      ensures Good(programDir, tests, task, k) <==> TestPasses(SetupOf(task), CasesOf(programDir, tests, task)[k])
    {
      GoodIsPassing(programDir, tests, task, k);
    }
  }

  // ---------- requests that are not judged ----------

  /** A submission that does not compile is answered with the compiler's verdict and message. */
  lemma CompileAnswer(programDir: string, tests: map<string, FileView>, task: Task)
    requires Offered(task.configure.codeType) && task.compilation.Rejected?
    ensures JudgeSpec(programDir, tests, task) == Answered(
      Results(task.compilation.verdict, 0, 0, -1, task.configure.runId, task.compilation.message))
  {
  }

  /** A request fails exactly when its directory cannot be created, or its language is not offered. */
  lemma FailedIff(found: Directory, canCreate: bool, programDir: string, tests: map<string, FileView>, task: Task)
    ensures var name := Decimal(task.configure.runId);
      var stuck := name in found.children && found.children[name].Dir?
                   && exists n :: Undeletable(found.children[name].entries, n);
      var foreign := name in found.children && !found.children[name].Dir?;
      var built := BuildSpec(found.present, canCreate, found.children, name);
      && (TaskSpec(built, programDir, tests, task) == Failed <==>
            (if canCreate then !stuck && !foreign && !Offered(task.configure.codeType)
             else found.present ==> !stuck && !foreign))
      && ((found.present || canCreate) && stuck ==> TaskSpec(built, programDir, tests, task) == Unfinished)
      && ((found.present || canCreate) && foreign ==> TaskSpec(built, programDir, tests, task) == Exit)
      && (canCreate && !stuck && !foreign ==>
            TaskSpec(built, programDir, tests, task) == JudgeSpec(programDir, tests, task))
  {
    BuildIff(found.present, canCreate, found.children, Decimal(task.configure.runId));
  }

  /** The reply to a failed request is a System Error under run id 0. */
  lemma FailedReply()
    ensures ReplyOf(Failed) == [Results(SE, 0, 0, -1, 0, "")]
  {
  }

  // ---------- what the executions return ----------

  /** As many good executions as tests that went on, and one more if the next test stopped judging. */
  lemma {:induction false} LogIs(steps: seq<Option<Step>>, i: nat, n: nat)
    requires StopsAt(steps, n) && i <= n
    ensures ExecutionLog(steps, i) == seq(n - i, k => true) +
      if n < |steps| && steps[n].Some? && steps[n].value.Halt? then [false] else []
    decreases n - i
  {
    if i < n {
      assert GoesOn(steps[i]);
      LogIs(steps, i + 1, n);
      assert seq(n - i, k => true) == [true] + seq(n - i - 1, k => true);
    }
  }

  // ---------- the directory after a task ----------

  /** A task leaves all other directories alone, and of its own the artefacts that `removeDir` cannot delete. */
  lemma TaskLeaves(children: map<string, Node>, name: string, artefacts: map<string, Node>)
    ensures var after := AfterTask(children, name, artefacts);
      && after - {name} == children - {name}
      && (name in after <==> exists n :: Undeletable(artefacts, n))
      && (name in after ==> after[name].Dir? && forall n ::
            (n in after[name].entries <==> Undeletable(artefacts, n)) &&
            (n in after[name].entries ==> after[name].entries[n] == artefacts[n]))
  {
    var before := children[name := Dir(artefacts)];
    SweepLeaves(before, name);
    SweepTask(children, before, name, artefacts, artefacts);
    assert before - {name} == children - {name};
  }
}
