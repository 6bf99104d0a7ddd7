/** One test: run the submission, then check its output (judger.cc). */
module Judger {
  import opened Protocol
  import opened Judge
  import opened Os
  import C = Checker

  /** The three descriptors of a test. */
  datatype IOFileno = IOFileno(rightInput: nat, rightOutput: nat, userOutput: nat)

  /**
   What the submission does on one test: the events its parent sees and the bytes it writes to
   standard output, with the outcome of the later `fstat` and `mmap` calls on that file.
   */
  datatype Behaviour = Behaviour(events: seq<WaitEvent>, output: seq<byte>, statOk: bool, mapOk: bool)

  /** How one `execute` ends: it hangs, lets the next test start, or stops judging. */
  datatype Step =
    | Hang
    | Next(results: Results)
    | Halt(results: Results)

  function ExecuteSpec(setup: Setup, events: seq<WaitEvent>, user: FileView, right: FileView): Step {
    match RunSpec(setup, events)
    case Blocked => Hang
    case Finished(code, results) =>
      if code == Ok then
        var (checked, verdict) := C.CheckSpec(user, right);
        if checked == Error then Halt(results.(judgeResult := verdict)) else Next(results)
      else Halt(results)
  }

  datatype Execution = Hung | Returned(goOn: bool)

  class Judger {
    const setup: Setup
    var results: Results

    constructor (setup: Setup)
      ensures this.setup == setup && results == NO_RESULTS
    {
      this.setup := setup;
      results := NO_RESULTS;
    }

    method Execute(os: System, io: IOFileno, behaviour: Behaviour) returns (execution: Execution)
      requires os.Valid() && os.Writable(io.userOutput)
      requires io.rightOutput in os.open && os.open[io.rightOutput].TestFile?
      modifies this, os`children
      ensures os.Valid() && os.Writable(io.userOutput)
      ensures os.Content(io.userOutput) == Overlay(old(os.Content(io.userOutput)), behaviour.output)
      ensures var t := os.open[io.userOutput];
        os.children == old(os.children)[t.dir :=
          Dir(old(os.children)[t.dir].entries[t.name := File(os.Content(io.userOutput))])]
      ensures var user := FileView(os.Content(io.userOutput), behaviour.statOk, behaviour.mapOk);
        match ExecuteSpec(setup, behaviour.events, user, os.tests[os.open[io.rightOutput].path])
        case Hang => execution == Hung
        case Next(r) => execution == Returned(true) && results == r
        case Halt(r) => execution == Returned(false) && results == r
    {
      var judge := new Judge(setup);
      var outcome := judge.Run(behaviour.events);
      os.Write(io.userOutput, behaviour.output);
      match outcome {
        case Blocked =>
          return Hung;
        case Finished(code, _) =>
          if code == Ok {
            results := judge.results;
            var user := FileView(os.Content(io.userOutput), behaviour.statOk, behaviour.mapOk);
            var right := os.tests[os.open[io.rightOutput].path];
            var checker := new C.Checker(user, right);
            var checked := checker.Run();
            if checked == Error {
              results := results.(judgeResult := checker.result);
              return Returned(false);
            }
            return Returned(true);
          } else if code == Error {
            results := judge.results;
            return Returned(false);
          }
      }
      return Returned(false);
    }
  }
}
