/**
 Any number of threads, each with its own `Log`, writing to one stream under one mutex (log.hpp).
 Threads interleave between any two elementary actions: taking the mutex, setting `isLock_`, one
 insertion into the stream, clearing `isLock_`, releasing the mutex, evaluating `endl()`.
 */
module LogThreads {
  import opened Log
  import opened Sequences

  /** What a thread logs, in order. */
  datatype Program = Program(prefix: string, lines: seq<LineSource>)

  datatype Pc =
    | Between                      // about to evaluate the next operand of the line
    | Locking                      // holds the mutex, `isLock_` not yet set
    | Writing(pending: seq<Piece>) // inside `<<` with data, after `lockofLog`
    | Ending                       // newline written, `unLockofLog` comes next
    | Unlocking                    // `isLock_` cleared, mutex not yet released

  datatype Thread = Thread(line: nat, tok: nat, armed: bool, flags: Flags, isLock: bool, pc: Pc)

  datatype Owner = Free | Held(thread: nat)

  /** `done` lists the finished lines, as (thread, line number), in the order of their completion. */
  datatype State = State(
    programs: seq<Program>,
    threads: seq<Thread>,
    owner: Owner,
    out: seq<Piece>,
    done: seq<(nat, nat)>)

  // ---------- steps ----------

  datatype MutexUse = Keep | Take | Release

  /** One thread's action: its new state, what it writes, and what it does to the mutex. */
  datatype Action = Blocked | Act(thread: Thread, written: seq<Piece>, mutex: MutexUse)

  function NextLine(th: Thread): Thread {
    th.(line := th.line + 1, tok := 0, armed := false, pc := Between)
  }

  function LocalStep(program: Program, th: Thread, free: bool): Action
    requires th.line < |program.lines| && th.tok <= |program.lines[th.line].tokens|
    requires th.pc.Locking? ==> th.tok < |program.lines[th.line].tokens|
  {
    var line := program.lines[th.line];
    match th.pc
    case Between =>
      if !th.armed && line.endlAt == th.tok then
        Act(th.(flags := RAISED, armed := true), [], Keep)
      else if th.tok < |line.tokens| then
        if th.isLock then
          Act(th.(flags := CLEARED,
                  pc := Writing(TokenPieces(th.flags, program.prefix, line.tokens[th.tok]))), [], Keep)
        else if free then Act(th.(pc := Locking), [], Take)
        else Blocked
      else Act(th.(pc := Ending), [Newline], Keep)
    case Locking =>
      Act(th.(isLock := true, flags := CLEARED,
              pc := Writing(TokenPieces(th.flags, program.prefix, line.tokens[th.tok]))), [], Keep)
    case Writing(pending) =>
      if pending == [] then Act(th.(pc := Between, tok := th.tok + 1), [], Keep)
      else Act(th.(pc := Writing(pending[1..])), [pending[0]], Keep)
    case Ending =>
      if th.isLock then Act(th.(isLock := false, pc := Unlocking), [], Keep)
      else Act(NextLine(th), [], Keep)
    case Unlocking => Act(NextLine(th), [], Release)
  }

  /** Whether a thread's state fits its program. */
  predicate InProgram(program: Program, th: Thread) {
    && th.line <= |program.lines|
    && (th.line < |program.lines| ==> th.tok <= |program.lines[th.line].tokens|)
    && (th.line < |program.lines| && (th.pc.Locking? || th.pc.Writing?) ==> th.tok < |program.lines[th.line].tokens|)
  }

  predicate Shaped(s: State) {
    && |s.threads| == |s.programs|
    && (forall t | 0 <= t < |s.threads| :: InProgram(s.programs[t], s.threads[t]))
  }

  predicate Finished(s: State, t: nat)
    requires Shaped(s) && t < |s.threads|
  {
    s.threads[t].line == |s.programs[t].lines|
  }

  predicate Enabled(s: State, t: nat)
    requires Shaped(s) && t < |s.threads|
  {
    !Finished(s, t) && LocalStep(s.programs[t], s.threads[t], s.owner.Free?).Act?
  }

  /** The system after thread `t` took the action `a`. */
  function After(s: State, t: nat, a: Action): State
    requires Shaped(s) && t < |s.threads| && a.Act?
  {
    s.(threads := s.threads[t := a.thread],
       out := s.out + a.written,
       owner := match a.mutex case Keep => s.owner case Take => Held(t) case Release => Free,
       done := if a.thread.line > s.threads[t].line then s.done + [(t, s.threads[t].line)] else s.done)
  }

  function Step(s: State, t: nat): State
    requires Shaped(s) && t < |s.threads| && Enabled(s, t)
  {
    After(s, t, LocalStep(s.programs[t], s.threads[t], s.owner.Free?))
  }

  ghost predicate Init(s: State) {
    && |s.threads| == |s.programs|
    && (forall t, k | 0 <= t < |s.programs| && 0 <= k < |s.programs[t].lines| :: WellFormed(s.programs[t].lines[k]))
    && (forall t | 0 <= t < |s.threads| :: s.threads[t] == Thread(0, 0, false, INITIAL, false, Between))
    && s.owner == Free && s.out == [] && s.done == []
  }

  ghost predicate Next(s: State, s': State) {
    Shaped(s) && exists t: nat :: t < |s.threads| && Enabled(s, t) && s' == Step(s, t)
  }

  /** A finite run of the system. */
  ghost predicate Run(states: seq<State>) {
    && |states| > 0
    && Init(states[0])
    && (forall i {:trigger Next(states[i], states[i + 1])} | 0 <= i < |states| - 1 :: Next(states[i], states[i + 1]))
  }

  // ---------- one thread ----------

  /** The thread holds the mutex. */
  predicate Holding(th: Thread) {
    th.pc != Between || th.tok > 0
  }

  /** What the thread has still to write of its current line. */
  function Remaining(program: Program, th: Thread): seq<Piece>
    requires InProgram(program, th) && th.line < |program.lines|
  {
    var line := program.lines[th.line];
    match th.pc
    case Between => Rest(line, program.prefix, th.flags, th.tok, th.armed).0
    case Locking => Rest(line, program.prefix, th.flags, th.tok, th.armed).0
    case Writing(pending) => pending + Rest(line, program.prefix, CLEARED, th.tok + 1, th.armed).0
    case Ending => []
    case Unlocking => []
  }

  /** The flags with which the thread will leave its current line. */
  function FinalFlags(program: Program, th: Thread): Flags
    requires InProgram(program, th) && th.line < |program.lines|
  {
    var line := program.lines[th.line];
    match th.pc
    case Between => Rest(line, program.prefix, th.flags, th.tok, th.armed).1
    case Locking => Rest(line, program.prefix, th.flags, th.tok, th.armed).1
    case Writing(_) => Rest(line, program.prefix, CLEARED, th.tok + 1, th.armed).1
    case Ending => th.flags
    case Unlocking => th.flags
  }

  /** Where in its line the thread is, and what its lock flag says. */
  ghost predicate Placed(program: Program, th: Thread) {
    && InProgram(program, th)
    && (th.isLock <==> Holding(th) && !th.pc.Locking? && !th.pc.Unlocking?)
    && (th.line == |program.lines| ==> !Holding(th))
    && (th.line < |program.lines| ==>
        && WellFormed(program.lines[th.line])
        && (th.pc.Locking? ==> th.tok == 0)
        && (th.pc.Locking? || th.pc.Writing? ==> th.armed || program.lines[th.line].endlAt != th.tok)
        && (th.pc.Writing? ==> th.flags == CLEARED)
        && (th.pc.Ending? || th.pc.Unlocking? ==> th.tok == |program.lines[th.line].tokens|))
  }

  /** What an action inside a line keeps: its place, what is written plus what remains, and the final flags. */
  ghost predicate KeepsLine(program: Program, th: Thread, a: Action)
    requires Placed(program, th) && th.line < |program.lines|
  {
    && a.Act? && a.thread.line == th.line && Placed(program, a.thread)
    && a.written + Remaining(program, a.thread) == Remaining(program, th)
    && FinalFlags(program, a.thread) == FinalFlags(program, th)
  }

  lemma BetweenKeeps(program: Program, th: Thread, free: bool)
    requires Placed(program, th) && th.line < |program.lines| && th.pc.Between?
    requires LocalStep(program, th, free).Act?
    ensures KeepsLine(program, th, LocalStep(program, th, free))
  {
  }

  lemma LockingKeeps(program: Program, th: Thread, free: bool)
    requires Placed(program, th) && th.line < |program.lines| && th.pc.Locking?
    ensures KeepsLine(program, th, LocalStep(program, th, free))
  {
    var line := program.lines[th.line];
    assert Remaining(program, th) == TokenPieces(th.flags, program.prefix, line.tokens[th.tok]) +
      Rest(line, program.prefix, CLEARED, th.tok + 1, th.armed).0;
  }

  lemma WritingKeeps(program: Program, th: Thread, free: bool)
    requires Placed(program, th) && th.line < |program.lines| && th.pc.Writing?
    ensures KeepsLine(program, th, LocalStep(program, th, free))
  {
    var pending := th.pc.pending;
    if pending != [] {
      assert pending == [pending[0]] + pending[1..];
    }
  }

  /** Every action before the last one of a line does. */
  lemma InsideLine(program: Program, th: Thread, free: bool)
    requires Placed(program, th) && th.line < |program.lines| && !th.pc.Unlocking?
    requires LocalStep(program, th, free).Act?
    ensures KeepsLine(program, th, LocalStep(program, th, free))
  {
    match th.pc {
      case Between => BetweenKeeps(program, th, free);
      case Locking => LockingKeeps(program, th, free);
      case Writing(_) => WritingKeeps(program, th, free);
      case Ending =>
    }
  }

  /** An action takes the mutex exactly when the thread starts to hold it, and likewise releases it. */
  lemma MutexDiscipline(program: Program, th: Thread, free: bool)
    requires Placed(program, th) && th.line < |program.lines|
    requires LocalStep(program, th, free).Act?
    ensures var a := LocalStep(program, th, free);
      && (a.mutex == Take <==> !Holding(th) && Holding(a.thread))
      && (a.mutex == Release <==> Holding(th) && !Holding(a.thread))
      && (a.mutex == Release <==> a.thread.line != th.line)
      && (a.mutex == Take ==> free)
      && (!Holding(th) ==> a.written == [])
  {
  }

  ghost predicate ThreadInv(program: Program, th: Thread) {
    && Placed(program, th)
    && (th.line < |program.lines| ==>
        && FinalFlags(program, th) == FlagsBefore(program.lines, program.prefix, th.line + 1)
        && |Remaining(program, th)| <= |LineText(program.lines, program.prefix, th.line)|
        && (!Holding(th) ==> Remaining(program, th) == LineText(program.lines, program.prefix, th.line)))
  }

  ghost predicate Sound(program: Program) {
    forall k | 0 <= k < |program.lines| :: WellFormed(program.lines[k])
  }

  /** Starting a line: the thread has all of it to write. */
  lemma LineStart(program: Program, th: Thread)
    requires Sound(program) && th.line <= |program.lines|
    requires th.tok == 0 && !th.armed && !th.isLock && th.pc == Between
    requires th.flags == FlagsBefore(program.lines, program.prefix, th.line)
    ensures ThreadInv(program, th)
  {
  }

  /** Every action keeps the thread's invariant and writes exactly what was due. */
  lemma LocalStepKeeps(program: Program, th: Thread, free: bool)
    requires Sound(program) && ThreadInv(program, th) && th.line < |program.lines|
    requires LocalStep(program, th, free).Act?
    ensures var a := LocalStep(program, th, free);
      && ThreadInv(program, a.thread)
      && (a.thread.line == th.line ==> a.written + Remaining(program, a.thread) == Remaining(program, th))
      && (a.thread.line != th.line ==>
            a.thread.line == th.line + 1 && a.written == [] && Remaining(program, th) == [])
  {
    MutexDiscipline(program, th, free);
    if th.pc.Unlocking? {
      LineStart(program, NextLine(th));
    } else {
      InsideLine(program, th, free);
      var a := LocalStep(program, th, free);
      if !Holding(a.thread) {
        assert !Holding(th) && a.written == [];
        assert a.written + Remaining(program, a.thread) == Remaining(program, a.thread);
      }
    }
  }

  // ---------- all threads ----------

  function CurrentLine(s: State, t: nat): seq<Piece>
    requires Shaped(s) && t < |s.threads| && !Finished(s, t)
  {
    LineText(s.programs[t].lines, s.programs[t].prefix, s.threads[t].line)
  }

  /** The text of finished lines, whole and one after the other. */
  function Render(programs: seq<Program>, done: seq<(nat, nat)>): seq<Piece> {
    if done == [] then []
    else
      var (t, i) := done[|done| - 1];
      Render(programs, done[..|done| - 1]) +
      if t < |programs| && i < |programs[t].lines| then LineText(programs[t].lines, programs[t].prefix, i) else []
  }

  /** The line numbers that thread `t` has finished, in the order of the output. */
  function LinesOf(done: seq<(nat, nat)>, t: nat): seq<nat> {
    if done == [] then []
    else
      LinesOf(done[..|done| - 1], t) + if done[|done| - 1].0 == t then [done[|done| - 1].1] else []
  }

  function UpTo(n: nat): seq<nat> {
    seq(n, i requires 0 <= i => i)
  }

  ghost predicate ThreadsInv(s: State) {
    && Shaped(s)
    && (forall t | 0 <= t < |s.threads| :: Sound(s.programs[t]) && ThreadInv(s.programs[t], s.threads[t]))
  }

  /** The mutex's owner is the one thread that is in the middle of a line. */
  ghost predicate OwnerInv(s: State)
    requires Shaped(s)
  {
    && (forall t: nat | t < |s.threads| :: Holding(s.threads[t]) <==> s.owner == Held(t))
    && (s.owner.Held? ==> s.owner.thread < |s.threads| && !Finished(s, s.owner.thread))
  }

  /** The output is whole lines, then what the owner has written of its line. */
  ghost predicate OutputInv(s: State)
    requires Shaped(s)
  {
    match s.owner
    case Free => s.out == Render(s.programs, s.done)
    case Held(t) =>
      t < |s.threads| && !Finished(s, t) &&
      s.out + Remaining(s.programs[t], s.threads[t]) == Render(s.programs, s.done) + CurrentLine(s, t)
  }

  ghost predicate OrderInv(s: State)
    requires Shaped(s)
  {
    forall t | 0 <= t < |s.threads| :: LinesOf(s.done, t) == UpTo(s.threads[t].line)
  }

  ghost predicate Inv(s: State) {
    ThreadsInv(s) && OwnerInv(s) && OutputInv(s) && OrderInv(s)
  }

  lemma InitInv(s: State)
    requires Init(s)
    ensures Inv(s)
  {
    forall t | 0 <= t < |s.threads|
      ensures Sound(s.programs[t]) && ThreadInv(s.programs[t], s.threads[t])
    {
      LineStart(s.programs[t], s.threads[t]);
    }
  }

  lemma ActionThreads(s: State, t: nat, a: Action)
    requires ThreadsInv(s) && t < |s.threads| && a.Act?
    requires ThreadInv(s.programs[t], a.thread)
    ensures ThreadsInv(After(s, t, a))
  {
    var s' := After(s, t, a);
    forall u | 0 <= u < |s.threads|
      ensures InProgram(s'.programs[u], s'.threads[u])
      ensures Sound(s'.programs[u]) && ThreadInv(s'.programs[u], s'.threads[u])
    {
      assert s'.threads[u] == if u == t then a.thread else s.threads[u];
    }
  }

  lemma ActionOwner(s: State, t: nat, a: Action)
    requires Shaped(s) && OwnerInv(s) && t < |s.threads| && a.Act? && Shaped(After(s, t, a))
    requires a.mutex == Take <==> !Holding(s.threads[t]) && Holding(a.thread)
    requires a.mutex == Release <==> Holding(s.threads[t]) && !Holding(a.thread)
    requires a.mutex == Take ==> s.owner.Free?
    requires Holding(a.thread) ==> a.thread.line < |s.programs[t].lines|
    ensures OwnerInv(After(s, t, a))
  {
    var s' := After(s, t, a);
    forall u: nat | u < |s.threads| ensures Holding(s'.threads[u]) <==> s'.owner == Held(u) {
      assert s'.threads[u] == if u == t then a.thread else s.threads[u];
    }
  }

  lemma StepThreads(s: State, t: nat)
    requires Inv(s) && t < |s.threads| && Enabled(s, t)
    ensures ThreadsInv(Step(s, t)) && OwnerInv(Step(s, t))
  {
    var a := LocalStep(s.programs[t], s.threads[t], s.owner.Free?);
    assert ThreadInv(s.programs[t], s.threads[t]);
    LocalStepKeeps(s.programs[t], s.threads[t], s.owner.Free?);
    MutexDiscipline(s.programs[t], s.threads[t], s.owner.Free?);
    ActionThreads(s, t, a);
    ActionOwner(s, t, a);
  }

  lemma LinesOfStep(done: seq<(nat, nat)>, t: nat, line: nat, u: nat)
    ensures LinesOf(done + [(t, line)], u) == LinesOf(done, u) + if t == u then [line] else []
  {
    assert (done + [(t, line)])[..|done|] == done;
  }

  lemma RenderStep(programs: seq<Program>, done: seq<(nat, nat)>, t: nat, line: nat)
    requires t < |programs| && line < |programs[t].lines|
    ensures Render(programs, done + [(t, line)]) ==
      Render(programs, done) + LineText(programs[t].lines, programs[t].prefix, line)
  {
    assert (done + [(t, line)])[..|done|] == done;
  }

  lemma ActionOrder(s: State, t: nat, a: Action)
    requires Shaped(s) && OrderInv(s) && t < |s.threads| && a.Act?
    requires a.thread.line == s.threads[t].line || a.thread.line == s.threads[t].line + 1
    requires Shaped(After(s, t, a))
    ensures OrderInv(After(s, t, a))
  {
    var s' := After(s, t, a);
    var line := s.threads[t].line;
    assert UpTo(line + 1) == UpTo(line) + [line];
    forall u | 0 <= u < |s.threads| ensures LinesOf(s'.done, u) == UpTo(s'.threads[u].line) {
      assert s'.threads[u] == if u == t then a.thread else s.threads[u];
      LinesOfStep(s.done, t, line, u);
    }
  }

  /** What `LocalStepKeeps` and `MutexDiscipline` say about the action of thread `t`. */
  ghost predicate Accounted(s: State, t: nat, a: Action)
    requires Shaped(s) && t < |s.threads| && !Finished(s, t)
  {
    var program, th := s.programs[t], s.threads[t];
    && a.Act? && InProgram(program, a.thread)
    && (a.thread.line == th.line && th.line < |program.lines| ==>
          a.written + Remaining(program, a.thread) == Remaining(program, th))
    && (a.thread.line != th.line ==>
          a.thread.line == th.line + 1 && a.mutex == Release && a.written == [] && Remaining(program, th) == [])
    && (a.mutex == Take ==> s.owner == Free && a.written == [] && th.line == a.thread.line
                            && Remaining(program, th) == CurrentLine(s, t))
    && (a.mutex == Release ==> s.owner == Held(t) && th.line != a.thread.line)
    && (a.mutex == Keep ==> a.thread.line == th.line && (s.owner == Held(t) || a.written == []))
  }

  lemma ActionAccounted(s: State, t: nat)
    requires Inv(s) && t < |s.threads| && Enabled(s, t)
    ensures Accounted(s, t, LocalStep(s.programs[t], s.threads[t], s.owner.Free?))
  {
    assert ThreadInv(s.programs[t], s.threads[t]);
    LocalStepKeeps(s.programs[t], s.threads[t], s.owner.Free?);
    MutexDiscipline(s.programs[t], s.threads[t], s.owner.Free?);
  }

  /** Giving the mutex back completes a line. */
  lemma ReleaseOutput(s: State, t: nat, a: Action)
    requires Shaped(s) && OutputInv(s) && t < |s.threads| && !Finished(s, t)
    requires Accounted(s, t, a) && Shaped(After(s, t, a)) && a.mutex == Release
    ensures OutputInv(After(s, t, a))
  {
    var line := s.threads[t].line;
    RenderStep(s.programs, s.done, t, line);
    NothingAdded(s.out);
    calc {
      s.out + a.written;
      s.out + Remaining(s.programs[t], s.threads[t]);
      Render(s.programs, s.done) + CurrentLine(s, t);
      Render(s.programs, s.done + [(t, line)]);
    }
  }

  /** Taking the mutex starts a line of which nothing is written. */
  lemma TakeOutput(s: State, t: nat, a: Action)
    requires Shaped(s) && OutputInv(s) && t < |s.threads| && !Finished(s, t)
    requires Accounted(s, t, a) && Shaped(After(s, t, a)) && a.mutex == Take
    ensures OutputInv(After(s, t, a))
  {
    NothingAdded(s.out);
    assert a.written + Remaining(s.programs[t], a.thread) == Remaining(s.programs[t], s.threads[t]);
    NothingBefore(Remaining(s.programs[t], a.thread));
  }

  /** In between, the owner moves pieces from its remaining line to the output, and nobody else writes. */
  lemma KeepOutput(s: State, t: nat, a: Action)
    requires Shaped(s) && OutputInv(s) && t < |s.threads| && !Finished(s, t)
    requires Accounted(s, t, a) && Shaped(After(s, t, a)) && a.mutex == Keep
    ensures OutputInv(After(s, t, a))
  {
    var program, th := s.programs[t], s.threads[t];
    if s.owner == Held(t) {
      calc {
        (s.out + a.written) + Remaining(program, a.thread);
        { Assoc(s.out, a.written, Remaining(program, a.thread)); }
        s.out + (a.written + Remaining(program, a.thread));
        s.out + Remaining(program, th);
      }
    } else {
      NothingAdded(s.out);
    }
  }

  lemma ActionOutput(s: State, t: nat, a: Action)
    requires Shaped(s) && OutputInv(s) && t < |s.threads| && !Finished(s, t)
    requires Accounted(s, t, a) && Shaped(After(s, t, a))
    ensures OutputInv(After(s, t, a))
  {
    match a.mutex {
      case Release => ReleaseOutput(s, t, a);
      case Take => TakeOutput(s, t, a);
      case Keep => KeepOutput(s, t, a);
    }
  }

  lemma StepKeepsInv(s: State, t: nat)
    requires Inv(s) && t < |s.threads| && Enabled(s, t)
    ensures Inv(Step(s, t))
  {
    var a := LocalStep(s.programs[t], s.threads[t], s.owner.Free?);
    StepThreads(s, t);
    ActionAccounted(s, t);
    ActionOrder(s, t, a);
    ActionOutput(s, t, a);
  }

  lemma NextInv(s: State, s': State)
    requires Inv(s) && Next(s, s')
    ensures Inv(s') && s'.programs == s.programs
  {
    var t: nat :| t < |s.threads| && Enabled(s, t) && s' == Step(s, t);
    StepKeepsInv(s, t);
  }

  /** The invariant holds in every state of every run. */
  lemma {:induction false} RunInv(states: seq<State>, i: nat)
    requires Run(states) && i < |states|
    ensures Inv(states[i])
    ensures states[i].programs == states[0].programs
  {
    if i == 0 {
      InitInv(states[0]);
    } else {
      RunInv(states, i - 1);
      var k := i - 1;
      assert Next(states[k], states[k + 1]);
      NextInv(states[k], states[k + 1]);
    }
  }

  // ---------- the promises ----------

  /** At most one `isLock_` is true, and it belongs to the mutex's owner. */
  lemma MutualExclusion(states: seq<State>, i: nat, t: nat, u: nat)
    requires Run(states) && i < |states|
    requires t < |states[i].threads| && u < |states[i].threads|
    requires states[i].threads[t].isLock
    ensures states[i].owner == Held(t)
    ensures states[i].threads[u].isLock ==> u == t
  {
    RunInv(states, i);
    var s := states[i];
    assert ThreadInv(s.programs[t], s.threads[t]) && ThreadInv(s.programs[u], s.threads[u]);
  }

  /**
   In every reachable state the output is a concatenation of whole lines, each as its thread alone
   would have written it, followed by the beginning of one more line of the mutex's owner.
   */
  lemma WholeLines(states: seq<State>, i: nat) returns (partial: seq<Piece>)
    requires Run(states) && i < |states|
    ensures states[i].out == Render(states[0].programs, states[i].done) + partial
    ensures states[i].owner.Free? ==> partial == []
    ensures states[i].owner.Held? ==>
      var t := states[i].owner.thread;
      && Shaped(states[i]) && t < |states[i].threads| && !Finished(states[i], t)
      && partial <= CurrentLine(states[i], t)
  {
    RunInv(states, i);
    var s := states[i];
    var whole := Render(s.programs, s.done);
    match s.owner {
      case Free =>
        partial := [];
      case Held(t) =>
        assert ThreadInv(s.programs[t], s.threads[t]);
        partial := s.out[|whole|..];
        SplitOff(s.out, Remaining(s.programs[t], s.threads[t]), whole, CurrentLine(s, t));
    }
  }

  lemma SplitOff<T>(out: seq<T>, rest: seq<T>, whole: seq<T>, line: seq<T>)
    requires out + rest == whole + line && |rest| <= |line|
    ensures out == whole + out[|whole|..] && out[|whole|..] <= line
  {
    assert out == (out + rest)[..|out|];
    assert whole == (whole + line)[..|whole|];
    assert line == (whole + line)[|whole|..];
    assert out[|whole|..] == line[..|out| - |whole|];
  }

  /** Each thread's lines come out in its program order, none missing and none twice. */
  lemma ProgramOrder(states: seq<State>, i: nat, t: nat)
    requires Run(states) && i < |states| && t < |states[i].threads|
    ensures LinesOf(states[i].done, t) == UpTo(states[i].threads[t].line)
    ensures |LinesOf(states[i].done, t)| == states[i].threads[t].line
    ensures forall k | 0 <= k < states[i].threads[t].line :: LinesOf(states[i].done, t)[k] == k
  {
    RunInv(states, i);
  }

  /** When every thread has finished, the output is all their lines and nothing else. */
  lemma AllWritten(states: seq<State>, i: nat)
    requires Run(states) && i < |states| && Shaped(states[i])
    requires forall t: nat | t < |states[i].threads| :: Finished(states[i], t)
    ensures states[i].out == Render(states[0].programs, states[i].done)
    ensures forall t: nat | t < |states[0].programs| ::
      LinesOf(states[i].done, t) == UpTo(|states[0].programs[t].lines|)
  {
    RunInv(states, i);
    forall t: nat | t < |states[0].programs|
      ensures LinesOf(states[i].done, t) == UpTo(|states[0].programs[t].lines|)
    {
      assert Finished(states[i], t);
    }
  }

  /** A thread in the middle of a line can always act, so a blocked thread waits for one that can. */
  lemma NoDeadlock(states: seq<State>, i: nat, t: nat) returns (u: nat)
    requires Run(states) && i < |states|
    requires Shaped(states[i]) && t < |states[i].threads| && !Finished(states[i], t)
    ensures u < |states[i].threads| && Enabled(states[i], u)
    ensures Holding(states[i].threads[t]) ==> u == t
    ensures !Enabled(states[i], t) ==> states[i].owner == Held(u)
  {
    RunInv(states, i);
    var s := states[i];
    assert ThreadInv(s.programs[t], s.threads[t]);
    u := if s.owner.Held? then s.owner.thread else t;
    assert ThreadInv(s.programs[u], s.threads[u]);
    if !Enabled(s, t) {
      assert s.owner.Held?;
    } else if !Holding(s.threads[t]) {
      u := t;
    }
  }

  // ---------- every run ends ----------

  /** Actions that the thread still has to take, counted generously. */
  function Work(program: Program, th: Thread): nat
    requires InProgram(program, th)
  {
    if th.line == |program.lines| then 0
    else LineWork(program.lines[th.line + 1..]) + WorkHere(th, |program.lines[th.line].tokens|)
  }

  /** The actions left in a line of `tokens` tokens. */
  function WorkHere(th: Thread, tokens: nat): nat
    requires th.tok <= tokens && (th.pc.Writing? ==> th.tok < tokens)
  {
    match th.pc
    case Between => 4 + (if th.armed then 0 else 1) + 6 * (tokens - th.tok)
    case Locking => 3 + (if th.armed then 0 else 1) + 6 * (tokens - th.tok)
    case Writing(pending) => 4 + (if th.armed then 0 else 1) + 6 * (tokens - th.tok - 1) + |pending| + 1
    case Ending => 3
    case Unlocking => 2
  }

  function LineWork(lines: seq<LineSource>): nat {
    if lines == [] then 0 else 5 + 6 * |lines[0].tokens| + LineWork(lines[1..])
  }

  /** Going to the next line leaves the work of the lines behind the current one. */
  lemma NextLineWork(program: Program, th: Thread)
    requires th.line < |program.lines|
    ensures InProgram(program, NextLine(th))
    ensures Work(program, NextLine(th)) == LineWork(program.lines[th.line + 1..])
  {
    var next := program.lines[th.line + 1..];
    if next != [] {
      assert next[0] == program.lines[th.line + 1] && next[1..] == program.lines[th.line + 2..];
    }
  }

  /** An action inside a line leaves less of the line to do. */
  lemma HereDecreases(program: Program, th: Thread, free: bool)
    requires Placed(program, th) && th.line < |program.lines|
    requires LocalStep(program, th, free).Act? && LocalStep(program, th, free).thread.line == th.line
    ensures var next, n := LocalStep(program, th, free).thread, |program.lines[th.line].tokens|;
      && InProgram(program, next) && WorkHere(next, n) < WorkHere(th, n)
  {
  }

  /** Every action brings its thread nearer to its end. */
  lemma WorkDecreases(program: Program, th: Thread, free: bool)
    requires Placed(program, th) && th.line < |program.lines|
    requires LocalStep(program, th, free).Act?
    ensures InProgram(program, LocalStep(program, th, free).thread)
    ensures Work(program, LocalStep(program, th, free).thread) < Work(program, th)
  {
    if LocalStep(program, th, free).thread.line == th.line {
      HereDecreases(program, th, free);
    } else {
      assert LocalStep(program, th, free).thread == NextLine(th);
      NextLineWork(program, th);
    }
  }

  function TotalWork(s: State, n: nat): nat
    requires Shaped(s) && n <= |s.threads|
  {
    if n == 0 then 0 else TotalWork(s, n - 1) + Work(s.programs[n - 1], s.threads[n - 1])
  }

  lemma {:induction false} TotalDecreases(s: State, s': State, t: nat, n: nat)
    requires Shaped(s) && Shaped(s') && s'.programs == s.programs && t < |s.threads| && n <= |s.threads|
    requires s'.threads == s.threads[t := s'.threads[t]]
    requires Work(s.programs[t], s'.threads[t]) < Work(s.programs[t], s.threads[t])
    ensures TotalWork(s', n) + (if n <= t then 0 else 1) <= TotalWork(s, n)
  {
    if n > 0 {
      TotalDecreases(s, s', t, n - 1);
    }
  }

  lemma StepWork(s: State, t: nat)
    requires Inv(s) && t < |s.threads| && Enabled(s, t)
    ensures Shaped(Step(s, t))
    ensures 1 + TotalWork(Step(s, t), |s.threads|) <= TotalWork(s, |s.threads|)
  {
    StepKeepsInv(s, t);
    assert ThreadInv(s.programs[t], s.threads[t]);
    WorkDecreases(s.programs[t], s.threads[t], s.owner.Free?);
    TotalDecreases(s, Step(s, t), t, |s.threads|);
  }

  /** The work left in a state. */
  function WorkLeft(s: State): nat
    requires Shaped(s)
  {
    TotalWork(s, |s.threads|)
  }

  lemma NextWork(s: State, s': State)
    requires Inv(s) && Next(s, s')
    ensures Shaped(s') && 1 + WorkLeft(s') <= WorkLeft(s)
  {
    var t: nat :| t < |s.threads| && Enabled(s, t) && s' == Step(s, t);
    StepWork(s, t);
  }

  lemma RunWork(states: seq<State>, k: nat)
    requires Run(states) && k + 1 < |states|
    ensures Shaped(states[k]) && Shaped(states[k + 1])
    ensures 1 + WorkLeft(states[k + 1]) <= WorkLeft(states[k])
  {
    RunInv(states, k);
    assert Next(states[k], states[k + 1]);
    NextWork(states[k], states[k + 1]);
  }

  /** No run is longer than the work there is at its start: with `NoDeadlock`, all lines get written. */
  lemma {:induction false} RunsEnd(states: seq<State>, i: nat)
    requires Run(states) && i < |states|
    ensures Shaped(states[0]) && Shaped(states[i])
    ensures i + WorkLeft(states[i]) <= WorkLeft(states[0])
  {
    if i == 0 {
      RunInv(states, 0);
    } else {
      RunsEnd(states, i - 1);
      RunWork(states, i - 1);
    }
  }
}
