/** The judge worker (judgeworker.cc). */
module Worker {
  import opened Protocol
  import opened Judge
  import opened Judger
  import opened Os
  import opened Files
  import opened Paths
  import opened Verdict
  import opened WorkDir

  // ---------- requests ----------

  datatype RunConfigure = RunConfigure(
    runId: uint32,
    programId: uint32,
    timeLimit: uint32,
    memoryLimit: uint32,
    codeType: uint32,
    trace: bool)

  /** What compiling does: the artefacts it leaves, or an error report besides. */
  datatype Compilation =
    | Compiled(artefacts: map<string, Node>)
    | Rejected(artefacts: map<string, Node>, verdict: JudgeResult, message: string)

  /** A request and what its submission does; there is one behaviour for each of its tests. */
  datatype Task = Task(
    configure: RunConfigure,
    callLimit: set<int>,
    pageKb: nat,
    compilation: Compilation,
    behaviours: seq<Behaviour>)

  /** Only C, C++, Python, Java and Ruby have a judger. */
  predicate KnownType(codeType: uint32) {
    codeType in {0, 1, 2, 3, 7}
  }

  /** Kilobytes that each language's judger excuses before it executes. */
  function MemoryAdd(codeType: uint32): uint32 {
    if codeType == 2 || codeType == 7 then 1024 * 2
    else if codeType == 3 then 1024 * 14
    else 0
  }

  function SetupOf(task: Task): Setup {
    var c := task.configure;
    Setup(ExecuteCondition(c.timeLimit, c.memoryLimit, c.trace, MemoryAdd(c.codeType)),
          task.callLimit, task.pageKb)
  }

  /** The tests as they are when each user output file starts empty. */
  function CaseOf(programDir: string, tests: map<string, FileView>, task: Task, num: nat): Case
    requires num < |task.behaviours|
  {
    var b := task.behaviours[num];
    var id := task.configure.programId;
    var out := RightOutputPath(programDir, id, num);
    if RightInputPath(programDir, id, num) in tests && out in tests then
      Case.Case(b.events, FileView(b.output, b.statOk, b.mapOk), tests[out])
    else Missing
  }

  function CasesOf(programDir: string, tests: map<string, FileView>, task: Task): (cases: seq<Case>)
    ensures |cases| == |task.behaviours|
    ensures forall i | 0 <= i < |cases| :: cases[i] == CaseOf(programDir, tests, task, i)
  {
    seq(|task.behaviours|, i requires 0 <= i < |task.behaviours| => CaseOf(programDir, tests, task, i))
  }

  /** What becomes of a request: answered, refused, never finished, or fatal to the process. */
  datatype TaskOutcome =
    | Answered(results: Results)
    | Failed
    | Unfinished
    | Exit

  /** The outcome of a task whose work directory could be built. */
  function JudgeSpec(programDir: string, tests: map<string, FileView>, task: Task): TaskOutcome {
    var runId := task.configure.runId;
    if !KnownType(task.configure.codeType) then Failed
    else
      match task.compilation
      case Rejected(_, verdict, message) =>
        Answered(NO_RESULTS.(judgeResult := verdict, compileError := message, runId := runId))
      case Compiled(_) =>
        match Final(SetupOf(task), CasesOf(programDir, tests, task))
        case Done(results) => Answered(results.(runId := runId))
        case Stuck => Unfinished
        case Exits => Exit
  }

  function TaskSpec(built: Built, programDir: string, tests: map<string, FileView>, task: Task): TaskOutcome {
    match built
    case Ready => JudgeSpec(programDir, tests, task)
    case Refused => Failed
    case Aborted => Exit
    case Spinning => Unfinished
  }

  /** Compilers leave only names of their own. */
  ghost predicate Sensible(task: Task) {
    && (forall n | n in task.compilation.artefacts :: ArtefactName(n))
    && PlainNames(task.compilation.artefacts)
    && (task.compilation.Rejected? ==> task.compilation.verdict in {CE, SE})
  }

  // ---------- open files ----------

  /** Exactly `n` executions have passed since the last one that let judging go on. */
  ghost predicate SinceGood(executions: seq<bool>, n: nat) {
    && n <= |executions|
    && (forall i | |executions| - n <= i < |executions| :: !executions[i])
    && (n < |executions| ==> executions[|executions| - n - 1])
  }

  lemma SinceGoodUnique(executions: seq<bool>, m: nat, n: nat)
    requires SinceGood(executions, m) && SinceGood(executions, n)
    ensures m == n
  {
  }

  /** What `execute` returns on the tests from `i` on, as long as the loop goes on. */
  function ExecutionLog(steps: seq<Option<Step>>, i: nat): seq<bool>
    requires i <= |steps|
    decreases |steps| - i
  {
    if i == |steps| || steps[i].None? || steps[i].value.Hang? then []
    else if steps[i].value.Halt? then [false]
    else [true] + ExecutionLog(steps, i + 1)
  }

  lemma LogStep(executions: seq<bool>, steps: seq<Option<Step>>, i: nat)
    requires i < |steps| && steps[i].Some?
    ensures steps[i].value.Halt? ==> executions + ExecutionLog(steps, i) == executions + [false]
    ensures steps[i].value.Next? ==>
      executions + ExecutionLog(steps, i) == executions + [true] + ExecutionLog(steps, i + 1)
  {
  }

  /** The steps of a task's tests; the trigger keeps what a step is out of proofs about the loop. */
  ghost predicate Describes(steps: seq<Option<Step>>, programDir: string, tests: map<string, FileView>, task: Task) {
    && |steps| == |task.behaviours|
    && forall k {:trigger CaseOf(programDir, tests, task, k)} | 0 <= k < |steps| ::
         steps[k] == StepOf(SetupOf(task), CaseOf(programDir, tests, task, k))
  }

  function StepsOf(programDir: string, tests: map<string, FileView>, task: Task): (steps: seq<Option<Step>>)
    ensures Describes(steps, programDir, tests, task)
  {
    Steps(SetupOf(task), CasesOf(programDir, tests, task))
  }

  /** What `execute` returns in a task that is answered. */
  function Executed(programDir: string, tests: map<string, FileView>, task: Task): seq<bool> {
    if task.compilation.Compiled? then ExecutionLog(StepsOf(programDir, tests, task), 0) else []
  }

  /** What it returns in the first `n` tasks, one after the other. */
  function ExecutedBefore(programDir: string, tests: map<string, FileView>, inbox: seq<Task>, n: nat): seq<bool>
    requires n <= |inbox|
  {
    if n == 0 then []
    else ExecutedBefore(programDir, tests, inbox, n - 1) + Executed(programDir, tests, inbox[n - 1])
  }

  // ---------- the work directory ----------

  predicate Holds(entries: map<string, Node>, name: string) {
    name in entries
  }

  ghost predicate EarlierOutput(name: string, num: nat) {
    exists k: nat :: k < num && name == OutputName(k)
  }

  /** During test `num` the directory holds the artefacts and the outputs of earlier tests. */
  ghost predicate Contents(entries: map<string, Node>, artefacts: map<string, Node>, num: nat) {
    && (forall n {:trigger Holds(artefacts, n)} :: Holds(artefacts, n) ==>
          n in entries && entries[n] == artefacts[n])
    && (forall n {:trigger Holds(entries, n)} :: Holds(entries, n) && n !in artefacts ==>
          entries[n].File? && EarlierOutput(n, num))
  }

  /** The next test's output file does not exist yet. */
  lemma NextOutputIsFresh(entries: map<string, Node>, artefacts: map<string, Node>, num: nat)
    requires Contents(entries, artefacts, num)
    requires forall n | n in artefacts :: ArtefactName(n)
    ensures OutputName(num) !in entries
  {
    OutputIsNoArtefact(num);
    if Holds(entries, OutputName(num)) {
      var k: nat :| k < num && OutputName(num) == OutputName(k);
      OutputNameInjective(num, k);
    }
  }

  /** Output files do not keep a directory alive. */
  lemma OutputsAreSwept(entries: map<string, Node>, artefacts: map<string, Node>, num: nat)
    requires Contents(entries, artefacts, num)
    ensures Survivors(entries) == Survivors(artefacts)
  {
    forall n ensures n in Survivors(entries) <==> n in Survivors(artefacts) {
      assert Holds(artefacts, n) == (n in artefacts) && Holds(entries, n) == (n in entries);
    }
    forall n | n in Survivors(artefacts) ensures Survivors(entries)[n] == Survivors(artefacts)[n] {
      assert Holds(artefacts, n);
    }
  }

  lemma OneMoreOutput(entries: map<string, Node>, artefacts: map<string, Node>, num: nat, output: seq<byte>)
    requires Contents(entries, artefacts, num)
    requires forall n | n in artefacts :: ArtefactName(n)
    ensures Contents(entries[OutputName(num) := File(output)], artefacts, num + 1)
  {
    NextOutputIsFresh(entries, artefacts, num);
    var after := entries[OutputName(num) := File(output)];
    forall n | Holds(artefacts, n) ensures n in after && after[n] == artefacts[n] {
    }
    forall n | Holds(after, n) && n !in artefacts ensures after[n].File? && EarlierOutput(n, num + 1) {
      if n != OutputName(num) {
        assert Holds(entries, n);
        var k: nat :| k < num && n == OutputName(k);
        assert k < num + 1;
      }
    }
  }

  lemma ContentsGrow(entries: map<string, Node>, artefacts: map<string, Node>, m: nat, n: nat)
    requires Contents(entries, artefacts, m) && m <= n
    ensures Contents(entries, artefacts, n)
  {
    forall name | Holds(entries, name) && name !in artefacts ensures EarlierOutput(name, n) {
      var k: nat :| k < m && name == OutputName(k);
      assert k < n;
    }
  }

  /** Creating an output file and then writing it changes one entry of one directory. */
  lemma Overwrite(base: map<string, Node>, dir: string, entries: map<string, Node>, name: string, output: seq<byte>)
    ensures var created := base[dir := Dir(entries)][dir := Dir(entries[name := File([])])];
      created[dir := Dir(created[dir].entries[name := File(output)])]
        == base[dir := Dir(entries[name := File(output)])]
  {
    assert entries[name := File([])][name := File(output)] == entries[name := File(output)];
  }

  // ---------- the worker ----------

  class JudgeWorker {
    const programDir: string
    const os: System
    const fileManager: FileManger
    ghost var executions: seq<bool>  // what every `execute` so far returned
    ghost var pending: nat           // how many of them came after the last good one

    /** The worker holds exactly the descriptors on its list. */
    ghost predicate Holding()
      reads this, os, fileManager
    {
      && fileManager.os == os
      && fileManager.Valid()
      && os.open.Keys == Fds(fileManager.files)
    }

    /** Between tests: three files for every execution since the last good one. */
    ghost predicate Valid()
      reads this, os, fileManager
    {
      && Holding()
      && SinceGood(executions, pending)
      && |fileManager.files| == 3 * pending
    }

    constructor (programDir: string, os: System)
      requires os.Valid() && os.open == map[]
      ensures Valid() && this.programDir == programDir && this.os == os && fresh(fileManager) && executions == []
    {
      this.programDir := programDir;
      this.os := os;
      fileManager := new FileManger(os);
      executions := [];
      pending := 0;
    }

    /** Three descriptors are open for each execution since the last good one. */
    ghost predicate Balanced()
      reads this, os
    {
      forall n: nat | SinceGood(executions, n) :: os.opens == os.closes + 3 * n
    }

    /**
     Descriptors opened are closed or held, and those held belong to the executions since the last
     good one: three for each, whichever executions there were.
     */
    lemma HandlesBalance()
      requires Valid()
      ensures os.opens == os.closes + |fileManager.files|
      ensures Balanced()
      ensures fileManager.isClosed <==> executions == [] || executions[|executions| - 1]
    {
      DistinctCount(fileManager.files);
      assert |os.open.Keys| == |os.open|;
      forall n: nat | SinceGood(executions, n) ensures n == pending {
        SinceGoodUnique(executions, n, pending);
      }
    }

    /** Notes what an execution returned. */
    ghost method Record(goOn: bool)
      requires SinceGood(executions, pending)
      modifies this`executions, this`pending
      ensures executions == old(executions) + [goOn]
      ensures SinceGood(executions, pending)
      ensures pending == if goOn then 0 else old(pending) + 1
    {
      executions := executions + [goOn];
      pending := if goOn then 0 else pending + 1;
    }

    /** Deletes what it can of a work directory; false stands for the exit on a non-directory. */
    method RemoveDir(name: string) returns (ok: bool)
      requires os.Valid() && name in os.children
      modifies os`children
      ensures os.Valid()
      ensures ok == old(os.children)[name].Dir?
      ensures os.children == if ok then AfterSweep(old(os.children), name) else old(os.children)
    {
      if !os.children[name].Dir? {
        return false;
      }
      ghost var before := os.children;
      RemoveEntries(name);
      assert before[name := Dir(Survivors(before[name].entries))] - {name} == before - {name};
      os.RemoveChild(name);
      return true;
    }

    /** One entry of the scan, after those in `seen`. */
    method VisitEntry(name: string, entry: string, ghost before: map<string, Node>, ghost seen: seq<string>)
      requires os.Valid() && name in before && before[name].Dir?
      requires os.children == before[name := Dir(Left(before[name].entries, seen))]
      modifies os`children
      ensures os.Valid()
      ensures os.children == before[name := Dir(Left(before[name].entries, seen + [entry]))]
    {
      LeftStep(before[name].entries, seen, entry);
      var dtype := DType(os.children[name].entries, entry);
      if dtype == 8 {
        os.RemoveEntry(name, entry);
      }
      if dtype == 4 && entry != "." && entry != ".." {
        os.RemoveEntry(name, entry);
      }
    }

    /** The directory scan of `removeDir`. */
    method RemoveEntries(name: string)
      requires os.Valid() && name in os.children && os.children[name].Dir?
      modifies os`children
      ensures os.Valid()
      ensures os.children == old(os.children)[name := Dir(Survivors(old(os.children)[name].entries))]
    {
      ghost var before := os.children;
      ghost var entries := before[name].entries;
      var listing := os.ReadDir(name);
      LeftEnds(entries, listing);
      var i := 0;
      while i < |listing|
        invariant 0 <= i <= |listing| && os.Valid()
        invariant os.children == before[name := Dir(Left(entries, listing[..i]))]
        modifies os`children
      {
        var entry := listing[i];
        VisitEntry(name, entry, before, listing[..i]);
        assert listing[..i + 1] == listing[..i] + [entry];
        i := i + 1;
      }
      assert listing[..i] == listing;
    }

    /**
     Creates the work directory.  The retry loop is watched for `watch` calls of mkdir; the outcome
     does not depend on how long one watches.
     */
    method BuildEnv(runId: uint32, watch: nat) returns (built: Built, calls: nat)
      requires os.Valid() && watch >= 2
      modifies os`tempExists, os`children
      ensures os.Valid()
      ensures built == BuildSpec(old(os.tempExists), os.canCreate, old(os.children), Decimal(runId))
      ensures built.Ready? ==>
        calls <= 2 && os.tempExists && os.children == old(os.children)[Decimal(runId) := Dir(map[])]
      ensures built.Spinning? ==>
        calls == watch && os.children == AfterSweep(old(os.children), Decimal(runId))
    {
      calls := 0;
      var errno := os.MkdirTemp();
      if errno == OtherError {
        return Refused, calls;
      }
      var name := Decimal(runId);
      ghost var before := os.children;
      while true
        invariant calls <= watch && os.Valid() && os.tempExists
        invariant calls == 0 ==> os.children == before
        invariant calls >= 1 ==>
          name in before && before[name].Dir? && os.children == AfterSweep(before, name)
        invariant calls >= 2 ==> Survivors(before[name].entries) != map[]
        decreases watch - calls
      {
        if calls == watch {
          return Spinning, calls;
        }
        if calls >= 1 && Survivors(before[name].entries) != map[] {
          ClearableIff(before[name].entries);
          SweepFixpoint(before, name);
        }
        errno := os.Mkdir(name);
        calls := calls + 1;
        if errno == Success {
          assert os.children == before[name := Dir(map[])];
          return Ready, calls;
        }
        if errno != EEXIST {
          return Refused, calls;
        }
        var ok := RemoveDir(name);
        if !ok {
          return Aborted, calls;
        }
      }
    }

    /**
     Opens a test's three files; None stands for the exit on a file that cannot be opened.  A user
     output that exists already is not truncated.
     */
    method GetFileno(programId: uint32, runId: uint32, num: nat) returns (io: Option<IOFileno>)
      requires Holding()
      modifies os`open, os`opens, os`children, fileManager
      ensures os.Valid()
      ensures io.Some? <==>
        && RightInputPath(programDir, programId, num) in os.tests
        && RightOutputPath(programDir, programId, num) in os.tests
        && CanOpen(old(os.children), Decimal(runId), OutputName(num))
      ensures io.Some? ==>
        && Holding()
        && |fileManager.files| == |old(fileManager.files)| + 3
        && io.value.rightInput in os.open
        && os.open[io.value.rightInput] == TestFile(RightInputPath(programDir, programId, num))
        && io.value.rightOutput in os.open
        && os.open[io.value.rightOutput] == TestFile(RightOutputPath(programDir, programId, num))
        && os.Writable(io.value.userOutput)
        && os.open[io.value.userOutput] == OutputFile(Decimal(runId), OutputName(num))
        && os.children == old(os.children)[Decimal(runId) :=
             Dir(Touched(old(os.children)[Decimal(runId)].entries, OutputName(num)))]
    {
      OutputNameIsPlain(num);
      io := OpenFiles(RightInputPath(programDir, programId, num), RightOutputPath(programDir, programId, num),
                      Decimal(runId), OutputName(num));
    }

    method OpenFiles(inputPath: string, outputPath: string, dir: string, name: string)
      returns (io: Option<IOFileno>)
      requires Holding() && name != "." && name != ".."
      modifies os`open, os`opens, os`children, fileManager
      ensures os.Valid()
      ensures io.Some? <==> inputPath in os.tests && outputPath in os.tests && CanOpen(old(os.children), dir, name)
      ensures io.Some? ==>
        && Holding()
        && |fileManager.files| == |old(fileManager.files)| + 3
        && io.value.rightInput in os.open && os.open[io.value.rightInput] == TestFile(inputPath)
        && io.value.rightOutput in os.open && os.open[io.value.rightOutput] == TestFile(outputPath)
        && os.Writable(io.value.userOutput)
        && os.open[io.value.userOutput] == OutputFile(dir, name)
        && os.children == old(os.children)[dir := Dir(Touched(old(os.children)[dir].entries, name))]
    {
      var right := OpenRightFiles(inputPath, outputPath);
      if right.None? {
        return None;
      }
      var (rightInput, rightOutput) := right.value;
      var userOutput := os.CreateFile(dir, name);
      if userOutput.None? {
        return None;
      }
      io := Some(IOFileno(rightInput, rightOutput, userOutput.value));
      Hold(io.value);
    }

    method OpenRightFiles(inputPath: string, outputPath: string) returns (right: Option<(nat, nat)>)
      requires os.Valid()
      modifies os`open, os`opens
      ensures os.Valid()
      ensures right.Some? <==> inputPath in os.tests && outputPath in os.tests
      ensures right.Some? ==>
        && right.value.0 !in old(os.open)
        && right.value.1 !in old(os.open) && right.value.1 != right.value.0
        && os.open == old(os.open)[right.value.0 := TestFile(inputPath)][right.value.1 := TestFile(outputPath)]
        && os.open.Keys == old(os.open.Keys) + {right.value.0} + {right.value.1}
    {
      var rightInput := os.OpenFile(inputPath);
      if rightInput.None? {
        return None;
      }
      var rightOutput := os.OpenFile(outputPath);
      if rightOutput.None? {
        return None;
      }
      return Some((rightInput.value, rightOutput.value));
    }

    /** Puts a test's three open files on the list. */
    method Hold(io: IOFileno)
      requires fileManager.os == os && fileManager.Valid()
      requires io.rightInput !in Fds(fileManager.files)
      requires io.rightOutput !in Fds(fileManager.files) + {io.rightInput}
      requires io.userOutput !in Fds(fileManager.files) + {io.rightInput} + {io.rightOutput}
      requires os.open.Keys == Fds(fileManager.files) + {io.rightInput} + {io.rightOutput} + {io.userOutput}
      modifies fileManager
      ensures Holding()
      ensures |fileManager.files| == |old(fileManager.files)| + 3
    {
      fileManager.PushBack(OpenedFile(io.rightInput));
      fileManager.PushBack(OpenedFile(io.rightOutput));
      fileManager.PushBack(OpenedFile(io.userOutput));
    }

    /**
     One test: opens its files, runs and checks.  None stands for the exit on a missing file.  The
     checker sees exactly what this run wrote, because the output file was not there before.
     */
    method RunTest(task: Task, judger: Judger, num: nat, ghost entries: map<string, Node>,
                   ghost steps: seq<Option<Step>>, ghost base: map<string, Node>)
      returns (execution: Option<Execution>)
      requires Holding() && Sensible(task) && num < |task.behaviours|
      requires judger.setup == SetupOf(task)
      requires Describes(steps, programDir, os.tests, task)
      requires os.children == base[Decimal(task.configure.runId) := Dir(entries)]
      requires Contents(entries, task.compilation.artefacts, num)
      modifies os`open, os`opens, os`children, fileManager, judger
      ensures match steps[num]
              case None => execution == None
              case Some(Hang) => execution == Some(Hung)
              case Some(Next(r)) => execution == Some(Returned(true)) && judger.results == r
              case Some(Halt(r)) => execution == Some(Returned(false)) && judger.results == r
      ensures execution.Some? ==>
        && Holding()
        && |fileManager.files| == |old(fileManager.files)| + 3
        && os.children == base[Decimal(task.configure.runId) :=
             Dir(entries[OutputName(num) := File(task.behaviours[num].output)])]
    {
      var c := task.configure;
      assert steps[num] == StepOf(SetupOf(task), CaseOf(programDir, os.tests, task, num));
      NextOutputIsFresh(entries, task.compilation.artefacts, num);
      var io := GetFileno(c.programId, c.runId, num);
      if io.None? {
        return None;
      }
      var done := judger.Execute(os, io.value, task.behaviours[num]);
      Overwrite(base, Decimal(c.runId), entries, OutputName(num), task.behaviours[num].output);
      return Some(done);
    }

    /** One round of the loop: a test, after which its files are closed if judging goes on. */
    method Round(task: Task, judger: Judger, num: nat, ghost entries: map<string, Node>,
                 ghost steps: seq<Option<Step>>, ghost base: map<string, Node>)
      returns (execution: Option<Execution>, ghost after: map<string, Node>)
      requires Valid() && Sensible(task) && num < |task.behaviours|
      requires judger.setup == SetupOf(task)
      requires Describes(steps, programDir, os.tests, task)
      requires os.children == base[Decimal(task.configure.runId) := Dir(entries)]
      requires Contents(entries, task.compilation.artefacts, num)
      modifies this`executions, this`pending, os`open, os`opens, os`closes, os`children, fileManager, judger
      ensures match steps[num]
              case None => execution == None
              case Some(Hang) => execution == Some(Hung)
              case Some(Next(r)) => execution == Some(Returned(true)) && judger.results == r
              case Some(Halt(r)) => execution == Some(Returned(false)) && judger.results == r
      ensures execution.Some? && execution.value.Returned? ==>
        && executions == old(executions) + [execution.value.goOn]
        && Valid()
        && os.children == base[Decimal(task.configure.runId) := Dir(after)]
        && Contents(after, task.compilation.artefacts, num + 1)
    {
      after := entries[OutputName(num) := File(task.behaviours[num].output)];
      OneMoreOutput(entries, task.compilation.artefacts, num, task.behaviours[num].output);
      execution := RunTest(task, judger, num, entries, steps, base);
      if execution.Some? && execution.value.Returned? {
        Record(execution.value.goOn);
        if execution.value.goOn {
          fileManager.CloseAll();
        }
      }
    }

    /** Before test `num`: the loop from here on gives `goal`, and `log` will be what was executed. */
    ghost predicate Testing(task: Task, judger: Judger, steps: seq<Option<Step>>, base: map<string, Node>,
                            entries: map<string, Node>, num: nat, goal: Outcome, log: seq<bool>)
      reads this, os, fileManager, judger
    {
      && num <= |steps|
      && Valid()
      && Judged(steps, judger.results, num) == goal
      && executions + ExecutionLog(steps, num) == log
      && os.children == base[Decimal(task.configure.runId) := Dir(entries)]
      && Contents(entries, task.compilation.artefacts, num)
    }

    /** The loop has ended with the judger's results. */
    ghost predicate Tested(task: Task, judger: Judger, base: map<string, Node>,
                           entries: map<string, Node>, goal: Outcome, log: seq<bool>)
      reads this, os, fileManager, judger
    {
      && Valid()
      && goal == Done(judger.results)
      && executions == log
      && os.children == base[Decimal(task.configure.runId) := Dir(entries)]
      && Contents(entries, task.compilation.artefacts, |task.behaviours|)
    }

    /** One turn of the loop: it goes on, ends with results, hangs, or exits. */
    method NextTest(task: Task, judger: Judger, num: nat, ghost entries: map<string, Node>,
                    ghost steps: seq<Option<Step>>, ghost base: map<string, Node>,
                    ghost goal: Outcome, ghost log: seq<bool>)
      returns (execution: Option<Execution>, ghost after: map<string, Node>)
      requires Sensible(task) && judger.setup == SetupOf(task) && num < |task.behaviours|
      requires Describes(steps, programDir, os.tests, task)
      requires Testing(task, judger, steps, base, entries, num, goal, log)
      modifies this`executions, this`pending, os`open, os`opens, os`closes, os`children, fileManager, judger
      ensures execution == None ==> goal == Exits
      ensures execution == Some(Hung) ==> goal == Stuck
      ensures execution == Some(Returned(true)) ==>
        Testing(task, judger, steps, base, after, num + 1, goal, log)
      ensures execution == Some(Returned(false)) ==> Tested(task, judger, base, after, goal, log)
    {
      if steps[num].Some? {
        LogStep(executions, steps, num);
      }
      execution, after := Round(task, judger, num, entries, steps, base);
      if execution == Some(Returned(false)) {
        ContentsGrow(after, task.compilation.artefacts, num + 1, |task.behaviours|);
      }
    }

    /** The loop over the tests; each step's outcome is that of its case, whatever went before. */
    method RunTests(task: Task, judger: Judger, ghost steps: seq<Option<Step>>, ghost base: map<string, Node>)
      returns (end: Outcome, ghost entries: map<string, Node>)
      requires Valid() && Sensible(task)
      requires judger.setup == SetupOf(task) && judger.results == NO_RESULTS
      requires Describes(steps, programDir, os.tests, task)
      requires os.children == base[Decimal(task.configure.runId) := Dir(task.compilation.artefacts)]
      modifies this`executions, this`pending, os`open, os`opens, os`closes, os`children, fileManager, judger
      ensures end == Judged(steps, NO_RESULTS, 0)
      ensures end.Done? ==> Valid() && judger.results == end.results
      ensures end.Done? ==> executions == old(executions) + ExecutionLog(steps, 0)
      ensures end.Done? ==>
        && Contents(entries, task.compilation.artefacts, |task.behaviours|)
        && os.children == base[Decimal(task.configure.runId) := Dir(entries)]
    {
      ghost var goal, log := Judged(steps, NO_RESULTS, 0), executions + ExecutionLog(steps, 0);
      entries := task.compilation.artefacts;
      var num := 0;
      while num != |task.behaviours|
        invariant 0 <= num <= |task.behaviours|
        invariant Testing(task, judger, steps, base, entries, num, goal, log)
        decreases |task.behaviours| - num
      {
        var execution;
        execution, entries := NextTest(task, judger, num, entries, steps, base, goal, log);
        if execution.None? {
          return Exits, entries;
        }
        if execution.value.Hung? {
          return Stuck, entries;
        }
        if !execution.value.goOn {
          break;
        }
        num := num + 1;
      }
      return Done(judger.results), entries;
    }

    /** `cleanEnv` at the end of a task. */
    method CleanEnv(name: string, ghost base: map<string, Node>, ghost entries: map<string, Node>,
                    ghost artefacts: map<string, Node>)
      requires os.Valid() && os.children == base[name := Dir(entries)]
      requires Survivors(entries) == Survivors(artefacts)
      modifies os`children
      ensures os.Valid() && os.children == AfterTask(base, name, artefacts)
    {
      SweepTask(base, os.children, name, entries, artefacts);
      var _ := RemoveDir(name);
    }

    /** A submission that compiled: run the tests, clean up. */
    method RunCompiled(task: Task, judger: Judger, ghost base: map<string, Node>) returns (outcome: TaskOutcome)
      requires Valid() && Sensible(task) && KnownType(task.configure.codeType) && task.compilation.Compiled?
      requires judger.setup == SetupOf(task) && judger.results == NO_RESULTS
      requires os.children == base[Decimal(task.configure.runId) := Dir(task.compilation.artefacts)]
      modifies this`executions, this`pending, fileManager, os`open, os`opens, os`closes, os`children, judger
      ensures outcome == JudgeSpec(programDir, os.tests, task)
      ensures outcome.Answered? ==>
        && Valid()
        && os.children == AfterTask(base, Decimal(task.configure.runId), task.compilation.artefacts)
        && executions == old(executions) + Executed(programDir, os.tests, task)
    {
      ghost var steps := StepsOf(programDir, os.tests, task);
      var end, entries := RunTests(task, judger, steps, base);
      match end {
        case Stuck => return Unfinished;
        case Exits => return Exit;
        case Done(_) =>
      }
      var results := judger.results;
      results := results.(runId := task.configure.runId);
      OutputsAreSwept(entries, task.compilation.artefacts, |task.behaviours|);
      CleanEnv(Decimal(task.configure.runId), base, entries, task.compilation.artefacts);
      return Answered(results);
    }

    /** A submission that did not compile: report the error, clean up. */
    method RunRejected(task: Task, judger: Judger, ghost base: map<string, Node>) returns (outcome: TaskOutcome)
      requires Valid() && Sensible(task) && task.compilation.Rejected? && judger.results == NO_RESULTS
      requires os.children == base[Decimal(task.configure.runId) := Dir(task.compilation.artefacts)]
      modifies os`children, judger
      ensures outcome == Answered(NO_RESULTS.(judgeResult := task.compilation.verdict,
                                              compileError := task.compilation.message,
                                              runId := task.configure.runId))
      ensures Valid()
      ensures os.children == AfterTask(base, Decimal(task.configure.runId), task.compilation.artefacts)
    {
      judger.results := judger.results.(judgeResult := task.compilation.verdict,
                                        compileError := task.compilation.message);
      var results := judger.results;
      CleanEnv(Decimal(task.configure.runId), base, task.compilation.artefacts, task.compilation.artefacts);
      results := results.(runId := task.configure.runId);
      return Answered(results);
    }

    /** Storing and compiling a submission leaves its artefacts in the work directory. */
    method Compile(task: Task, ghost base: map<string, Node>)
      requires Valid() && Sensible(task)
      requires os.children == base[Decimal(task.configure.runId) := Dir(map[])]
      modifies os`children
      ensures Valid()
      ensures os.children == base[Decimal(task.configure.runId) := Dir(task.compilation.artefacts)]
    {
      os.Install(Decimal(task.configure.runId), task.compilation.artefacts);
      assert map[] + task.compilation.artefacts == task.compilation.artefacts;
    }

    /** A request whose work directory is ready: compile, run the tests, clean up. */
    method JudgeTask(task: Task, ghost base: map<string, Node>) returns (outcome: TaskOutcome)
      requires Valid() && os.tempExists && Sensible(task)
      requires os.children == base[Decimal(task.configure.runId) := Dir(map[])]
      modifies this`executions, this`pending, fileManager, os`open, os`opens, os`closes, os`children
      ensures outcome == JudgeSpec(programDir, os.tests, task)
      ensures outcome.Answered? || outcome.Failed? ==> Valid()
      ensures outcome.Answered? ==>
        && os.children == AfterTask(base, Decimal(task.configure.runId), task.compilation.artefacts)
        && executions == old(executions) + Executed(programDir, os.tests, task)
      ensures outcome.Failed? ==> executions == old(executions)
    {
      var name := Decimal(task.configure.runId);
      if !KnownType(task.configure.codeType) {
        return Failed;
      }
      var judger := new Judger(SetupOf(task));
      Compile(task, base);
      if task.compilation.Compiled? {
        outcome := RunCompiled(task, judger, base);
      } else {
        outcome := RunRejected(task, judger, base);
      }
    }

    /** One request, from building its directory to cleaning up. */
    method ProcessTask(task: Task) returns (outcome: TaskOutcome)
      requires Valid() && Sensible(task)
      modifies this`executions, this`pending, fileManager
      modifies os`tempExists, os`open, os`opens, os`closes, os`children
      ensures outcome == TaskSpec(
        BuildSpec(old(os.tempExists), os.canCreate, old(os.children), Decimal(task.configure.runId)),
        programDir, os.tests, task)
      ensures outcome.Answered? || outcome.Failed? ==> Valid()
      ensures outcome.Answered? ==>
        && os.tempExists
        && os.children == AfterTask(old(os.children), Decimal(task.configure.runId), task.compilation.artefacts)
        && executions == old(executions) + Executed(programDir, os.tests, task)
      ensures outcome.Failed? ==> executions == old(executions)
    {
      ghost var base := os.children;
      var built, _ := BuildEnv(task.configure.runId, 2);
      match built {
        case Refused => return Failed;
        case Aborted => return Exit;
        case Spinning => return Unfinished;
        case Ready =>
      }
      outcome := JudgeTask(task, base);
    }

    /** The temporary directory as it is. */
    function Temp(): Directory
      reads os
    {
      TempDir(os.tempExists, os.children)
    }

    /** Between requests: all those so far were answered, and the worker is as they leave it. */
    ghost predicate Waiting(inbox: seq<Task>, outcomes: seq<TaskOutcome>, start: Directory, before: seq<bool>)
      reads this, os, fileManager
    {
      && Valid()
      && (forall i | 0 <= i < |outcomes| :: outcomes[i].Answered?)
      && Follows(outcomes, programDir, os.tests, os.canCreate, start, inbox)
      && Temp() == DirBefore(start, inbox, |outcomes|)
      && executions == before + ExecutedBefore(programDir, os.tests, inbox, |outcomes|)
    }

    /** Once the loop is left: nothing is promised about a request that never ends. */
    ghost predicate Stopped(inbox: seq<Task>, outcomes: seq<TaskOutcome>, start: Directory, before: seq<bool>)
      reads this, os, fileManager
    {
      && Disciplined(outcomes, |inbox|)
      && Follows(outcomes, programDir, os.tests, os.canCreate, start, inbox)
      && (!InProgress(outcomes) ==>
            && Valid()
            && executions == before + ExecutedBefore(programDir, os.tests, inbox, AnswerCount(outcomes)))
    }

    /** The next request, in the directory that the answered ones before it leave. */
    method Attempt(inbox: seq<Task>, outcomes: seq<TaskOutcome>, ghost start: Directory, ghost before: seq<bool>)
      returns (outcome: TaskOutcome)
      requires Valid() && |outcomes| < |inbox| && Sensible(inbox[|outcomes|])
      requires Temp() == DirBefore(start, inbox, |outcomes|)
      requires Follows(outcomes, programDir, os.tests, os.canCreate, start, inbox)
      requires executions == before + ExecutedBefore(programDir, os.tests, inbox, |outcomes|)
      modifies this`executions, this`pending, fileManager
      modifies os`tempExists, os`open, os`opens, os`closes, os`children
      ensures Follows(outcomes + [outcome], programDir, os.tests, os.canCreate, start, inbox)
      ensures outcome.Answered? || outcome.Failed? ==> Valid()
      ensures outcome.Answered? ==> Temp() == DirBefore(start, inbox, |outcomes| + 1)
      ensures outcome.Answered? ==> executions == before + ExecutedBefore(programDir, os.tests, inbox, |outcomes| + 1)
      ensures outcome.Failed? ==> executions == before + ExecutedBefore(programDir, os.tests, inbox, |outcomes|)
    {
      outcome := ProcessTask(inbox[|outcomes|]);
      ExecutedStep(before, programDir, os.tests, inbox, |outcomes|);
      FollowsStep(outcomes, outcome, programDir, os.tests, os.canCreate, start, inbox);
    }

    /** The next request as the worker's loop sees it. */
    method Serve(inbox: seq<Task>, outcomes: seq<TaskOutcome>, ghost start: Directory, ghost before: seq<bool>)
      returns (outcome: TaskOutcome)
      requires |outcomes| < |inbox| && Sensible(inbox[|outcomes|]) && Waiting(inbox, outcomes, start, before)
      modifies this`executions, this`pending, fileManager
      modifies os`tempExists, os`open, os`opens, os`closes, os`children
      ensures outcome.Answered? ==> Waiting(inbox, outcomes + [outcome], start, before)
      ensures !outcome.Answered? ==> Stopped(inbox, outcomes + [outcome], start, before)
    {
      outcome := Attempt(inbox, outcomes, start, before);
    }

    /** The worker's whole run over the requests that reach it. */
    method Run(inbox: seq<Task>) returns (outcomes: seq<TaskOutcome>, replies: seq<Results>)
      requires Valid() && forall i | 0 <= i < |inbox| :: Sensible(inbox[i])
      modifies this`executions, this`pending, fileManager
      modifies os`tempExists, os`open, os`opens, os`closes, os`children
      ensures Stopped(inbox, outcomes, old(Temp()), old(executions))
      ensures replies == Replies(outcomes)
      ensures !InProgress(outcomes) ==> Balanced()
    {
      outcomes, replies := [], [];
      ghost var start, before := Temp(), executions;
      while |outcomes| < |inbox|
        invariant |outcomes| <= |inbox| && Waiting(inbox, outcomes, start, before)
        invariant replies == Replies(outcomes)
      {
        var outcome := Serve(inbox, outcomes, start, before);
        var reply := Reply(outcome);
        RepliesStep(outcomes, outcome);
        outcomes := outcomes + [outcome];
        replies := replies + reply;
        if !outcome.Answered? {
          break;
        }
      }
      if |outcomes| == |inbox| && (outcomes == [] || outcomes[|outcomes| - 1].Answered?) {
        AllServed(inbox, outcomes, start, before);
      }
      StoppedBalance(inbox, outcomes, start, before);
    }

    /** When no request is left, the loop is over too. */
    lemma AllServed(inbox: seq<Task>, outcomes: seq<TaskOutcome>, start: Directory, before: seq<bool>)
      requires Waiting(inbox, outcomes, start, before) && |outcomes| == |inbox|
      ensures Stopped(inbox, outcomes, start, before)
    {
    }

    lemma StoppedBalance(inbox: seq<Task>, outcomes: seq<TaskOutcome>, start: Directory, before: seq<bool>)
      requires Stopped(inbox, outcomes, start, before)
      ensures !InProgress(outcomes) ==> Balanced()
    {
      if !InProgress(outcomes) {
        HandlesBalance();
      }
    }

    /** The reply sent for a request: its results, a System Error, or none while it is not finished. */
    method Reply(outcome: TaskOutcome) returns (reply: seq<Results>)
      ensures reply == ReplyOf(outcome)
    {
      match outcome {
        case Unfinished => return [];
        case Exit => return [];
        case Failed =>
          var results := NO_RESULTS;
          results := results.(judgeResult := SE);
          return [results];
        case Answered(results) =>
          return [results];
      }
    }

    /** The destructor: the list of open files goes, and with it every descriptor the worker holds. */
    method Destroy()
      requires Holding()
      modifies fileManager, os`open, os`closes
      ensures fileManager.files == [] && os.open == map[] && os.opens == os.closes
    {
      fileManager.Destroy();
    }
  }

  /** A worker thread: a worker that serves its requests and is destroyed when its loop is left. */
  method StartWorker(programDir: string, os: System, inbox: seq<Task>)
    returns (outcomes: seq<TaskOutcome>, replies: seq<Results>)
    requires os.Valid() && os.open == map[] && forall i | 0 <= i < |inbox| :: Sensible(inbox[i])
    modifies os`tempExists, os`open, os`opens, os`closes, os`children
    ensures Disciplined(outcomes, |inbox|) && replies == Replies(outcomes)
    ensures Follows(outcomes, programDir, os.tests, os.canCreate, old(TempDir(os.tempExists, os.children)), inbox)
    ensures !InProgress(outcomes) ==> os.open == map[] && os.opens == os.closes
  {
    var worker := new JudgeWorker(programDir, os);
    outcomes, replies := worker.Run(inbox);
    if outcomes == [] || outcomes[|outcomes| - 1].Answered? || outcomes[|outcomes| - 1].Failed? {
      worker.Destroy();
    }
  }

  // ---------- the requests in their order ----------

  /** The temporary directory, which may not exist yet. */
  datatype Directory = TempDir(present: bool, children: map<string, Node>)

  /** The temporary directory that request `i` finds when all before it were answered. */
  function DirBefore(start: Directory, inbox: seq<Task>, i: nat): Directory
    requires i <= |inbox|
  {
    if i == 0 then start
    else
      var task := inbox[i - 1];
      TempDir(true, AfterTask(DirBefore(start, inbox, i - 1).children,
                              Decimal(task.configure.runId), task.compilation.artefacts))
  }

  /** What becomes of request `i` then. */
  function OutcomeAt(programDir: string, tests: map<string, FileView>, canCreate: bool,
                     start: Directory, inbox: seq<Task>, i: nat): TaskOutcome
    requires i < |inbox|
  {
    var found, task := DirBefore(start, inbox, i), inbox[i];
    TaskSpec(BuildSpec(found.present, canCreate, found.children, Decimal(task.configure.runId)),
             programDir, tests, task)
  }

  /** Every request taken has the outcome that its place in the order gives it. */
  ghost predicate Follows(outcomes: seq<TaskOutcome>, programDir: string, tests: map<string, FileView>,
                          canCreate: bool, start: Directory, inbox: seq<Task>)
  {
    && |outcomes| <= |inbox|
    && forall i {:trigger OutcomeAt(programDir, tests, canCreate, start, inbox, i)} | 0 <= i < |outcomes| ::
         outcomes[i] == OutcomeAt(programDir, tests, canCreate, start, inbox, i)
  }

  lemma FollowsStep(outcomes: seq<TaskOutcome>, outcome: TaskOutcome, programDir: string,
                    tests: map<string, FileView>, canCreate: bool, start: Directory, inbox: seq<Task>)
    requires Follows(outcomes, programDir, tests, canCreate, start, inbox) && |outcomes| < |inbox|
    requires outcome == OutcomeAt(programDir, tests, canCreate, start, inbox, |outcomes|)
    ensures Follows(outcomes + [outcome], programDir, tests, canCreate, start, inbox)
  {
  }

  lemma ExecutedStep(before: seq<bool>, programDir: string, tests: map<string, FileView>, inbox: seq<Task>, n: nat)
    requires n < |inbox|
    ensures before + ExecutedBefore(programDir, tests, inbox, n + 1) ==
      before + ExecutedBefore(programDir, tests, inbox, n) + Executed(programDir, tests, inbox[n])
  {
  }

  /** The order of the requests and the first directory determine everything the worker does. */
  lemma OutcomesUnique(a: seq<TaskOutcome>, b: seq<TaskOutcome>, programDir: string, tests: map<string, FileView>,
                       canCreate: bool, start: Directory, inbox: seq<Task>)
    requires Disciplined(a, |inbox|) && Follows(a, programDir, tests, canCreate, start, inbox)
    requires Disciplined(b, |inbox|) && Follows(b, programDir, tests, canCreate, start, inbox)
    ensures a == b
  {
    forall i | 0 <= i < |a| && i < |b| ensures a[i] == b[i] {
      assert a[i] == OutcomeAt(programDir, tests, canCreate, start, inbox, i);
    }
    assert |a| == |b|;
  }

  /** An answer is the submission's own: it depends on no earlier request. */
  lemma AnswersAreOwn(outcomes: seq<TaskOutcome>, programDir: string, tests: map<string, FileView>,
                      canCreate: bool, start: Directory, inbox: seq<Task>, i: nat)
    requires Follows(outcomes, programDir, tests, canCreate, start, inbox)
    requires i < |outcomes| && outcomes[i].Answered?
    ensures outcomes[i] == JudgeSpec(programDir, tests, inbox[i])
  {
    assert outcomes[i] == OutcomeAt(programDir, tests, canCreate, start, inbox, i);
  }

  // ---------- requests that share a run id ----------

  function RunIdOf(task: Task): uint32 {
    task.configure.runId
  }

  /** The two directories agree about this name. */
  ghost predicate SameEntry(a: map<string, Node>, b: map<string, Node>, name: string) {
    && (name in a <==> name in b)
    && (name in a ==> a[name] == b[name])
  }

  lemma StillSame(a: map<string, Node>, b: map<string, Node>, c: map<string, Node>, name: string)
    requires SameEntry(a, b, name) && SameEntry(b, c, name)
    ensures SameEntry(a, c, name)
  {
  }

  lemma OtherTask(children: map<string, Node>, name: string, other: string, artefacts: map<string, Node>)
    requires name != other
    ensures SameEntry(children, AfterTask(children, other, artefacts), name)
  {
  }

  lemma OtherTaskBefore(start: Directory, inbox: seq<Task>, i: nat, name: string)
    requires i < |inbox| && name != Decimal(RunIdOf(inbox[i]))
    ensures SameEntry(DirBefore(start, inbox, i).children, DirBefore(start, inbox, i + 1).children, name)
  {
    OtherTask(DirBefore(start, inbox, i).children, name, Decimal(RunIdOf(inbox[i])), inbox[i].compilation.artefacts);
  }

  /** Requests under other run ids leave the entry for this one alone. */
  lemma {:induction false} OthersLeave(start: Directory, inbox: seq<Task>, j: nat, i: nat, runId: uint32)
    requires j <= i <= |inbox| && forall k | j <= k < i :: RunIdOf(inbox[k]) != runId
    ensures SameEntry(DirBefore(start, inbox, j).children, DirBefore(start, inbox, i).children, Decimal(runId))
  {
    if j < i {
      OthersLeave(start, inbox, j, i - 1, runId);
      DecimalsDiffer(runId, RunIdOf(inbox[i - 1]));
      OtherTaskBefore(start, inbox, i - 1, Decimal(runId));
      StillSame(DirBefore(start, inbox, j).children, DirBefore(start, inbox, i - 1).children,
                DirBefore(start, inbox, i).children, Decimal(runId));
    }
  }

  /** Request `j` is the last one before request `i` with the same run id. */
  ghost predicate LastUse(inbox: seq<Task>, j: nat, i: nat) {
    && j < i < |inbox| && RunIdOf(inbox[j]) == RunIdOf(inbox[i])
    && forall k | j < k < i :: RunIdOf(inbox[k]) != RunIdOf(inbox[i])
  }

  lemma ReadyIgnoresFlag(a: Directory, b: Directory, name: string)
    requires SameEntry(a.children, b.children, name)
    ensures BuildSpec(a.present, true, a.children, name) == BuildSpec(b.present, true, b.children, name)
  {
  }

  /** What request `i` finds is what the last one with its run id left. */
  lemma ReusedRunBuilt(start: Directory, inbox: seq<Task>, j: nat, i: nat)
    requires LastUse(inbox, j, i)
    ensures var found := DirBefore(start, inbox, i);
      BuildSpec(found.present, true, found.children, Decimal(RunIdOf(inbox[i]))) ==
      if Clearable(inbox[j].compilation.artefacts) then Ready else Spinning
  {
    var name := Decimal(RunIdOf(inbox[i]));
    var left, found := DirBefore(start, inbox, j + 1), DirBefore(start, inbox, i);
    OthersLeave(start, inbox, j + 1, i, RunIdOf(inbox[i]));
    ReadyIgnoresFlag(left, found, name);
    assert left == TempDir(true, AfterTask(DirBefore(start, inbox, j).children, name, inbox[j].compilation.artefacts));
    SameRunAgainIff(DirBefore(start, inbox, j).children, name, inbox[j].compilation.artefacts);
  }

  /**
   Where mkdir may create, a request whose run id was used before is judged exactly when the last
   such request left artefacts that could be swept, and never ends otherwise: nothing else that
   happened in between matters.
   */
  lemma ReusedRunIff(programDir: string, tests: map<string, FileView>, start: Directory, inbox: seq<Task>,
                     j: nat, i: nat)
    requires LastUse(inbox, j, i)
    ensures OutcomeAt(programDir, tests, true, start, inbox, i) ==
      if Clearable(inbox[j].compilation.artefacts) then JudgeSpec(programDir, tests, inbox[i]) else Unfinished
  {
    ReusedRunBuilt(start, inbox, j, i);
  }

  /** A request whose run id is new finds what was there at the start. */
  lemma NewRunIff(programDir: string, tests: map<string, FileView>, start: Directory, inbox: seq<Task>, i: nat)
    requires i < |inbox| && forall k | 0 <= k < i :: RunIdOf(inbox[k]) != RunIdOf(inbox[i])
    ensures OutcomeAt(programDir, tests, true, start, inbox, i) ==
      TaskSpec(BuildSpec(start.present, true, start.children, Decimal(RunIdOf(inbox[i]))), programDir, tests, inbox[i])
  {
    OthersLeave(start, inbox, 0, i, RunIdOf(inbox[i]));
    ReadyIgnoresFlag(start, DirBefore(start, inbox, i), Decimal(RunIdOf(inbox[i])));
  }

  // ---------- replies ----------

  /** The reply to a request that could not be processed. */
  const SYSTEM_ERROR := NO_RESULTS.(judgeResult := SE)

  function ReplyOf(outcome: TaskOutcome): seq<Results> {
    match outcome
    case Answered(results) => [results]
    case Failed => [SYSTEM_ERROR]
    case _ => []
  }

  function Replies(outcomes: seq<TaskOutcome>): seq<Results> {
    if outcomes == [] then []
    else Replies(outcomes[..|outcomes| - 1]) + ReplyOf(outcomes[|outcomes| - 1])
  }

  lemma RepliesStep(outcomes: seq<TaskOutcome>, outcome: TaskOutcome)
    ensures Replies(outcomes + [outcome]) == Replies(outcomes) + ReplyOf(outcome)
  {
    assert (outcomes + [outcome])[..|outcomes|] == outcomes;
  }

  /** A worker stops at the first request that it does not answer from a judged task. */
  ghost predicate Disciplined(outcomes: seq<TaskOutcome>, requests: nat) {
    && |outcomes| <= requests
    && (forall i | 0 <= i < |outcomes| - 1 :: outcomes[i].Answered?)
    && (|outcomes| < requests ==> outcomes != [] && !outcomes[|outcomes| - 1].Answered?)
  }

  ghost predicate InProgress(outcomes: seq<TaskOutcome>) {
    outcomes != [] && (outcomes[|outcomes| - 1].Unfinished? || outcomes[|outcomes| - 1].Exit?)
  }

  /** Only the last request taken can be one that is not answered. */
  function AnswerCount(outcomes: seq<TaskOutcome>): (n: nat)
    ensures n <= |outcomes|
  {
    if outcomes != [] && !outcomes[|outcomes| - 1].Answered? then |outcomes| - 1 else |outcomes|
  }

  /**
   Replies sent are requests taken less the one in progress, in order; the i-th answers the i-th
   request, and a System Error with run id 0 for an unprocessed request is the last action.
   */
  lemma {:induction false} ReplyDiscipline(outcomes: seq<TaskOutcome>, requests: nat)
    requires Disciplined(outcomes, requests)
    ensures |Replies(outcomes)| == |outcomes| - if InProgress(outcomes) then 1 else 0
    ensures forall i | 0 <= i < |Replies(outcomes)| ::
      (outcomes[i].Answered? && Replies(outcomes)[i] == outcomes[i].results) ||
      (outcomes[i].Failed? && i == |outcomes| - 1 && Replies(outcomes)[i] == Results(SE, 0, 0, -1, 0, ""))
  {
    if outcomes != [] {
      var before := outcomes[..|outcomes| - 1];
      ReplyDiscipline(before, |before|);
    }
  }

  ghost predicate AnswersAccepted(programDir: string, tests: map<string, FileView>, task: Task) {
    var outcome := JudgeSpec(programDir, tests, task);
    outcome.Answered? && outcome.results.judgeResult == AC
  }

  /** The language is known, it compiled, and the tests went as acceptance asks. */
  ghost predicate DeservesAccepted(programDir: string, tests: map<string, FileView>, task: Task) {
    && KnownType(task.configure.codeType)
    && task.compilation.Compiled?
    && PassedAndEndedWell(SetupOf(task), CasesOf(programDir, tests, task))
  }

  /**
   The whole pipeline: "Accepted" is answered exactly when the language is known, compiling
   succeeded, there is a test, every run and every check of what that run wrote returned kOk, and the
   last run was within its limits.
   */
  lemma AcceptedAnswerIff(programDir: string, tests: map<string, FileView>, task: Task)
    requires Sensible(task)
    ensures AnswersAccepted(programDir, tests, task) <==> DeservesAccepted(programDir, tests, task)
  {
    AcceptedIff(SetupOf(task), CasesOf(programDir, tests, task));
  }

  /** An answer carries its request's run id. */
  lemma AnswerNamesItsRun(programDir: string, tests: map<string, FileView>, task: Task)
    requires JudgeSpec(programDir, tests, task).Answered?
    ensures JudgeSpec(programDir, tests, task).results.runId == task.configure.runId
  {
  }

  /** The temporary directory after a task: its own directory is gone unless an artefact resists. */
  function AfterTask(children: map<string, Node>, name: string, artefacts: map<string, Node>): map<string, Node> {
    var rest := Survivors(artefacts);
    if rest == map[] then children - {name} else children[name := Dir(rest)]
  }

  /**
   A second task with the same run id gets its work directory exactly when the first task's artefacts
   could be swept; otherwise the worker spins for ever.
   */
  lemma SameRunAgainIff(children: map<string, Node>, name: string, artefacts: map<string, Node>)
    ensures BuildSpec(true, true, AfterTask(children, name, artefacts), name) == Ready <==> Clearable(artefacts)
    ensures BuildSpec(true, true, AfterTask(children, name, artefacts), name) == Spinning <==> !Clearable(artefacts)
  {
    ClearableIff(artefacts);
    SweepIsIdempotent(artefacts);
  }

  /** A Python submission whose compiler keeps its byte code in a directory of its own. */
  function CachedTask(configure: RunConfigure): Task {
    Task(configure, {}, 4, Compiled(map["__pycache__" := Dir(map["main.pyc" := File([])])]), [])
  }

  /** Such artefacts resist the sweep, so the next request with this run id never ends. */
  lemma CacheBlocksNext(configure: RunConfigure, children: map<string, Node>)
    requires configure.codeType == 2
    ensures var task, name := CachedTask(configure), Decimal(configure.runId);
      && Sensible(task) && KnownType(configure.codeType) && task.compilation.Compiled?
      && BuildSpec(true, true, AfterTask(children, name, task.compilation.artefacts), name) == Spinning
  {
    var artefacts, name := CachedTask(configure).compilation.artefacts, Decimal(configure.runId);
    var inner := map["main.pyc" := File([])];
    assert "main.pyc" in inner;
    assert artefacts["__pycache__"] == Dir(inner) && !Swept(artefacts["__pycache__"]);
    SameRunAgainIff(children, name, artefacts);
  }

  lemma SweepTask(base: map<string, Node>, children: map<string, Node>, name: string,
                  entries: map<string, Node>, artefacts: map<string, Node>)
    requires children == base[name := Dir(entries)] && Survivors(entries) == Survivors(artefacts)
    ensures AfterSweep(children, name) == AfterTask(base, name, artefacts)
  {
  }

  lemma OutputNameIsPlain(num: nat)
    ensures OutputName(num) != "." && OutputName(num) != ".."
  {
    assert |OutputName(num)| >= 5;
  }
}
