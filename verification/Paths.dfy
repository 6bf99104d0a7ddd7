/** The paths that the worker builds with `boost::format` (judgeworker.cc). */
module Paths {

  function Digit(d: nat): char
    requires d < 10
  {
    '0' + d as char
  }

  /** How `%d` renders an unsigned number. */
  function Decimal(n: nat): (s: string)
    ensures s != [] && forall i | 0 <= i < |s| :: '0' <= s[i] <= '9'
  {
    if n < 10 then [Digit(n)] else Decimal(n / 10) + [Digit(n % 10)]
  }

  function Value(s: string): nat
    requires forall i | 0 <= i < |s| :: '0' <= s[i] <= '9'
  {
    if s == [] then 0 else Value(s[..|s| - 1]) * 10 + (s[|s| - 1] - '0') as nat
  }

  lemma {:induction false} DecimalRoundTrip(n: nat)
    ensures Value(Decimal(n)) == n
  {
    if n < 10 {
      assert Value([Digit(n)][..0]) == 0;
    } else {
      DecimalRoundTrip(n / 10);
      var s := Decimal(n / 10) + [Digit(n % 10)];
      assert s[..|s| - 1] == Decimal(n / 10);
    }
  }

  function WorkDirPath(tempDir: string, runId: nat): string {
    tempDir + "/" + Decimal(runId)
  }

  function OutputName(num: nat): string {
    Decimal(num) + ".out"
  }

  /** The user's output file of test `num`. */
  function UserOutputPath(tempDir: string, runId: nat, num: nat): string {
    WorkDirPath(tempDir, runId) + "/" + OutputName(num)
  }

  function RightInputPath(programDir: string, programId: nat, num: nat): string {
    programDir + "/" + Decimal(programId) + "/in/" + Decimal(num)
  }

  function RightOutputPath(programDir: string, programId: nat, num: nat): string {
    programDir + "/" + Decimal(programId) + "/out/" + Decimal(num)
  }

  ghost predicate NoSlash(s: string) {
    forall i | 0 <= i < |s| :: s[i] != '/'
  }

  /** A slash-free component ends at the first slash. */
  lemma FirstSlash(a: string, x: string, b: string, y: string)
    requires NoSlash(a) && NoSlash(b)
    requires a + "/" + x == b + "/" + y
    ensures a == b && x == y
  {
    var s, t := a + "/" + x, b + "/" + y;
    assert s[|a|] == '/' && t[|b|] == '/';
    assert forall i | 0 <= i < |a| :: s[i] == a[i];
    assert forall i | 0 <= i < |b| :: t[i] == b[i];
    assert |a| == |b|;
    assert a == s[..|a|] && b == t[..|b|];
    assert x == s[|a| + 1..] && y == t[|b| + 1..];
  }

  lemma SamePrefix(p: string, x: string, y: string)
    requires p + x == p + y
    ensures x == y
  {
    assert (p + x)[|p|..] == x && (p + y)[|p|..] == y;
  }

  lemma SameSuffix(x: string, y: string, p: string)
    requires x + p == y + p
    ensures x == y
  {
    assert (x + p)[..|x + p| - |p|] == x && (y + p)[..|y + p| - |p|] == y;
  }

  lemma DecimalInjective(m: nat, n: nat)
    requires Decimal(m) == Decimal(n)
    ensures m == n
  {
    DecimalRoundTrip(m);
    DecimalRoundTrip(n);
  }

  lemma DecimalsDiffer(m: nat, n: nat)
    requires m != n
    ensures Decimal(m) != Decimal(n)
  {
    if Decimal(m) == Decimal(n) {
      DecimalInjective(m, n);
    }
  }

  /** Tests of one task get different file names. */
  lemma OutputNameInjective(m: nat, n: nat)
    requires OutputName(m) == OutputName(n)
    ensures m == n
  {
    SameSuffix(Decimal(m), Decimal(n), ".out");
    DecimalInjective(m, n);
  }

  /** No two (run, test) pairs share a user output path. */
  lemma UserOutputPathInjective(tempDir: string, run1: nat, num1: nat, run2: nat, num2: nat)
    requires UserOutputPath(tempDir, run1, num1) == UserOutputPath(tempDir, run2, num2)
    ensures run1 == run2 && num1 == num2
  {
    var rest1, rest2 := Decimal(run1) + "/" + OutputName(num1), Decimal(run2) + "/" + OutputName(num2);
    assert UserOutputPath(tempDir, run1, num1) == (tempDir + "/") + rest1;
    assert UserOutputPath(tempDir, run2, num2) == (tempDir + "/") + rest2;
    SamePrefix(tempDir + "/", rest1, rest2);
    FirstSlash(Decimal(run1), OutputName(num1), Decimal(run2), OutputName(num2));
    DecimalInjective(run1, run2);
    OutputNameInjective(num1, num2);
  }

  /** Expected output never comes from another problem, another test, or an input file. */
  lemma TestDataPathsDiffer(programDir: string, id1: nat, num1: nat, id2: nat, num2: nat)
    ensures RightOutputPath(programDir, id1, num1) == RightOutputPath(programDir, id2, num2) <==>
      id1 == id2 && num1 == num2
    ensures RightInputPath(programDir, id1, num1) == RightInputPath(programDir, id2, num2) <==>
      id1 == id2 && num1 == num2
    ensures RightInputPath(programDir, id1, num1) != RightOutputPath(programDir, id2, num2)
  {
    var root := programDir + "/";
    var in1, in2 := "in/" + Decimal(num1), "in/" + Decimal(num2);
    var out1, out2 := "out/" + Decimal(num1), "out/" + Decimal(num2);
    assert in1[0] == 'i' && out2[0] == 'o';
    assert RightInputPath(programDir, id1, num1) == root + (Decimal(id1) + "/" + in1);
    assert RightInputPath(programDir, id2, num2) == root + (Decimal(id2) + "/" + in2);
    assert RightOutputPath(programDir, id1, num1) == root + (Decimal(id1) + "/" + out1);
    assert RightOutputPath(programDir, id2, num2) == root + (Decimal(id2) + "/" + out2);
    if RightOutputPath(programDir, id1, num1) == RightOutputPath(programDir, id2, num2) {
      SamePrefix(root, Decimal(id1) + "/" + out1, Decimal(id2) + "/" + out2);
      FirstSlash(Decimal(id1), out1, Decimal(id2), out2);
      SamePrefix("out/", Decimal(num1), Decimal(num2));
      DecimalInjective(id1, id2);
      DecimalInjective(num1, num2);
    }
    if RightInputPath(programDir, id1, num1) == RightInputPath(programDir, id2, num2) {
      SamePrefix(root, Decimal(id1) + "/" + in1, Decimal(id2) + "/" + in2);
      FirstSlash(Decimal(id1), in1, Decimal(id2), in2);
      SamePrefix("in/", Decimal(num1), Decimal(num2));
      DecimalInjective(id1, id2);
      DecimalInjective(num1, num2);
    }
    if RightInputPath(programDir, id1, num1) == RightOutputPath(programDir, id2, num2) {
      SamePrefix(root, Decimal(id1) + "/" + in1, Decimal(id2) + "/" + out2);
      FirstSlash(Decimal(id1), in1, Decimal(id2), out2);
    }
  }

  predicate EndsWith(s: string, suffix: string) {
    |s| >= |suffix| && s[|s| - |suffix|..] == suffix
  }

  /** Names that storing and compiling a submission creates in the work directory. */
  predicate ArtefactName(name: string) {
    || name in {"main.c", "main", "main.py", "main.rb", "Main.java", "error_info", "__pycache__"}
    || EndsWith(name, ".class")
    || EndsWith(name, ".pyc")
  }

  /** A user output file is never a compiler artefact. */
  lemma OutputIsNoArtefact(num: nat)
    ensures !ArtefactName(OutputName(num))
  {
    var s := OutputName(num);
    assert s[|s| - 1] == 't' && s[|s| - 2] == 'u' && s[|s| - 4] == '.';
    if |s| >= 6 {
      assert s[|s| - 6..][5] == 't';
    }
    assert s[|s| - 4..][3] == 't';
  }

  // ---------- written out ----------

  /** The last digit, after the digits of the rest. */
  lemma DecimalDigits(n: nat)
    ensures n < 10 ==> Decimal(n) == ["0123456789"[n]]
    ensures n >= 10 ==> Decimal(n) == Decimal(n / 10) + ["0123456789"[n % 10]]
  {
    assert forall d | 0 <= d < 10 :: "0123456789"[d] == Digit(d);
  }

  /** The formats of the paths. */
  lemma PathFormats(programDir: string, tempDir: string, programId: nat, runId: nat, num: nat)
    ensures RightInputPath(programDir, programId, num) ==
      programDir + "/" + Decimal(programId) + "/in/" + Decimal(num)
    ensures RightOutputPath(programDir, programId, num) ==
      programDir + "/" + Decimal(programId) + "/out/" + Decimal(num)
    ensures UserOutputPath(tempDir, runId, num) ==
      tempDir + "/" + Decimal(runId) + "/" + Decimal(num) + ".out"
    ensures WorkDirPath(tempDir, runId) == tempDir + "/" + Decimal(runId)
    ensures UserOutputPath(tempDir, runId, num) == WorkDirPath(tempDir, runId) + "/" + OutputName(num)
    ensures OutputName(num) == Decimal(num) + ".out"
  {
    var dir, file := tempDir + "/" + Decimal(runId), Decimal(num) + ".out";
    assert dir + "/" + file == dir + "/" + Decimal(num) + ".out";
  }

  /** The names that the judges of the five languages use. */
  lemma ArtefactNames(stem: string)
    ensures ArtefactName("main.c") && ArtefactName("main") && ArtefactName("main.py") && ArtefactName("main.rb")
    ensures ArtefactName("Main.java") && ArtefactName("error_info") && ArtefactName("__pycache__")
    ensures ArtefactName(stem + ".class") && ArtefactName(stem + ".pyc")
  {
    assert (stem + ".class")[|stem|..] == ".class" && (stem + ".pyc")[|stem|..] == ".pyc";
  }
}
