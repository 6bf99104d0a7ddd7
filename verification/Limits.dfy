/** Which limits a run can meet, and which it can exceed, where pages are a power of two (judge.cc). */
module Limits {
  import opened Protocol
  import opened Judge
  import opened Verdict
  import opened Worker

  // ---------- remainders ----------

  lemma Multiples(k: int, p: int)
    requires p > 0
    ensures k > 0 ==> k * p >= p
    ensures k < 0 ==> k * p <= -p
  {
  }

  /** Quotient and remainder are unique. */
  lemma Remainder(x: int, p: int, q: int, r: int)
    requires p > 0 && x == q * p + r && 0 <= r < p
    ensures x % p == r
  {
    var k := q - x / p;
    assert k * p == q * p - x / p * p;
    Multiples(k, p);
    assert x == x / p * p + x % p;
  }

  /** Multiples of `p` do not change the remainder. */
  lemma AddMultiple(x: int, p: int, k: int)
    requires p > 0
    ensures (x + k * p) % p == x % p
  {
    assert x + k * p == (x / p + k) * p + x % p;
    Remainder(x + k * p, p, x / p + k, x % p);
  }

  lemma SameRemainder(x: int, y: int, p: int)
    requires p > 0 && x % p == y % p
    ensures x - y == (x / p - y / p) * p
  {
    assert x == x / p * p + x % p && y == y / p * p + y % p;
  }

  // ---------- which memory figures come out ----------

  /** A page is a power of two of kilobytes, so that whole pages fill the 32-bit range. */
  predicate Paged(setup: Setup) {
    setup.pageKb > 0 && TWO_32 % setup.pageKb == 0
  }

  /** The least figure that can come out as the memory used: what whole pages leave of the allowance. */
  function LeastKb(setup: Setup): nat
    requires Paged(setup)
  {
    var add: int := setup.condition.memoryAdd;
    -add % setup.pageKb
  }

  /** The greatest. */
  function MostKb(setup: Setup): int
    requires Paged(setup)
  {
    TWO_32 - setup.pageKb + LeastKb(setup)
  }

  /** Every figure differs from the least one by whole pages. */
  lemma StoredPages(setup: Setup, usage: Rusage)
    requires Paged(setup)
    ensures StoredMemory(setup, usage) % setup.pageKb == LeastKb(setup)
  {
    var p, add := setup.pageKb, setup.condition.memoryAdd;
    var x := usage.minflt * p - add;
    var q, w := x / TWO_32, TWO_32 / p;
    assert TWO_32 == w * p;
    calc {
      StoredMemory(setup, usage);
      x - q * TWO_32;
      { Distribute(usage.minflt, q, w, p); }
      -add + (usage.minflt - q * w) * p;
    }
    AddMultiple(-add, p, usage.minflt - q * w);
  }

  lemma Distribute(m: int, q: int, w: int, p: int)
    ensures m * p - q * (w * p) == (m - q * w) * p
  {
  }

  lemma StoredRange(setup: Setup, usage: Rusage)
    requires Paged(setup)
    ensures LeastKb(setup) <= StoredMemory(setup, usage) <= MostKb(setup)
  {
    StoredPages(setup, usage);
    FigureRange(StoredMemory(setup, usage), setup.pageKb, TWO_32 / setup.pageKb);
  }

  /** Below a multiple of `p`, a number is at least its remainder and at most that much into the last multiple. */
  lemma FigureRange(r: nat, p: nat, w: nat)
    requires p > 0 && r < w * p
    ensures r % p <= r <= w * p - p + r % p
  {
    var k := r / p - w;
    assert k * p == r / p * p - w * p;
    assert (k + 1) * p == k * p + p;
    assert r == r / p * p + r % p;
    Multiples(k, p);
    Multiples(k + 1, p);
    Multiples(r / p, p);
  }

  /** A child of no time that touches so much memory that the given figure comes out. */
  lemma ReachFigure(setup: Setup, r: uint32, millis: nat) returns (usage: Rusage)
    requires Paged(setup) && r % setup.pageKb == LeastKb(setup)
    ensures UserMillis(usage) == millis && StoredMemory(setup, usage) == r
  {
    var p, add: int := setup.pageKb, setup.condition.memoryAdd;
    SameRemainder(r, -add, p);
    var pages := r / p - (-add) / p;
    assert pages * p == r + add;
    Multiples(pages, p);
    usage := Rusage(millis / 1000, millis % 1000 * 1000, pages);
    assert TouchedKb(setup, usage) == r + add;
  }

  lemma ExtremesFit(setup: Setup)
    requires Paged(setup)
    ensures 0 <= LeastKb(setup) <= MostKb(setup) < TWO_32
    ensures LeastKb(setup) % setup.pageKb == LeastKb(setup) && MostKb(setup) % setup.pageKb == LeastKb(setup)
  {
    var p := setup.pageKb;
    var w := TWO_32 / p;
    assert TWO_32 == w * p;
    Multiples(w, p);
    Remainder(LeastKb(setup), p, 0, LeastKb(setup));
    assert MostKb(setup) == (w - 1) * p + LeastKb(setup);
    Remainder(MostKb(setup), p, w - 1, LeastKb(setup));
  }

  // ---------- limits that cannot be met, and limits that cannot be exceeded ----------

  /** Nothing meets the limits exactly when the least memory figure is already over. */
  lemma HopelessIff(setup: Setup)
    requires Paged(setup)
    ensures Hopeless(setup) <==> LeastKb(setup) > setup.condition.memoryLimit
  {
    ExtremesFit(setup);
    if LeastKb(setup) > setup.condition.memoryLimit {
      forall usage ensures ExitVerdict(setup, usage) != AC {
        StoredRange(setup, usage);
      }
    } else {
      var usage := ReachFigure(setup, LeastKb(setup), 0);
      assert ExitVerdict(setup, usage) == AC;
    }
  }

  /** Nothing exceeds them exactly when both limits are at the top of what can come out. */
  lemma BoundlessIff(setup: Setup)
    requires Paged(setup)
    ensures Boundless(setup) <==>
      setup.condition.timeLimit == 0xffff_ffff && MostKb(setup) <= setup.condition.memoryLimit
  {
    ExtremesFit(setup);
    if setup.condition.timeLimit < 0xffff_ffff {
      var usage := ReachFigure(setup, LeastKb(setup), 0xffff_ffff);
      assert ExitVerdict(setup, usage) == TLE;
    } else if MostKb(setup) > setup.condition.memoryLimit {
      var usage := ReachFigure(setup, MostKb(setup), 0);
      assert ExitVerdict(setup, usage) == MLE;
    } else {
      forall usage ensures ExitVerdict(setup, usage) == AC {
        StoredRange(setup, usage);
      }
    }
  }

  /** Acceptance says that every run was within the limits, in terms of the limits themselves. */
  lemma LimitsCoveredIff(setup: Setup, n: nat)
    requires Paged(setup)
    ensures (forall cases | |cases| == n :: CoversLimits(setup, cases)) <==>
      || n <= 1
      || LeastKb(setup) > setup.condition.memoryLimit
      || (setup.condition.trace && setup.condition.timeLimit == 0xffff_ffff
          && MostKb(setup) <= setup.condition.memoryLimit)
  {
    CoversLimitsIff(setup, n);
    HopelessIff(setup);
    BoundlessIff(setup);
  }

  /** Acceptance says that no run was killed, in terms of the limits themselves. */
  lemma EndsCoveredIff(setup: Setup, n: nat)
    requires Paged(setup)
    ensures (forall cases | |cases| == n :: CoversEnds(setup, cases)) <==>
      setup.condition.trace || n <= 1 || LeastKb(setup) > setup.condition.memoryLimit
  {
    CoversEndsIff(setup, n);
    HopelessIff(setup);
  }

  // ---------- the limits of a request ----------

  /** Pages of 1 KB up to 2 MB; the platform's are 4 KB. */
  predicate OrdinaryPages(task: Task) {
    task.pageKb > 0 && 2048 % task.pageKb == 0
  }

  /** Every language's allowance is then a number of whole pages. */
  lemma AllowanceInPages(task: Task)
    requires OrdinaryPages(task)
    ensures var setup := SetupOf(task);
      Paged(setup) && LeastKb(setup) == 0 && MostKb(setup) == TWO_32 - task.pageKb
  {
    var p: int := task.pageKb;
    var m := 2048 / p;
    var add: int := MemoryAdd(task.configure.codeType);
    var k := add / 2048;
    assert 2048 == m * p && add == k * 2048;
    assert TWO_32 == (0x20_0000 * m) * p;
    assert -add == -(k * (m * p)) == (-k * m) * p;
    Remainder(TWO_32, p, 0x20_0000 * m, 0);
    Remainder(-add, p, -k * m, 0);
  }

  /**
   An accepted answer says that none of the submission's runs was killed by a signal, exactly for
   requests that are traced or have at most one test.
   */
  lemma RequestEndsIff(task: Task, n: nat)
    requires OrdinaryPages(task)
    ensures (forall cases | |cases| == n :: CoversEnds(SetupOf(task), cases)) <==>
      task.configure.trace || n <= 1
  {
    AllowanceInPages(task);
    EndsCoveredIff(SetupOf(task), n);
  }

  /**
   It says that every run was within the limits exactly for requests with at most one test, or traced
   ones whose limits are the greatest that can be told apart.
   */
  lemma RequestLimitsIff(task: Task, n: nat)
    requires OrdinaryPages(task)
    ensures (forall cases | |cases| == n :: CoversLimits(SetupOf(task), cases)) <==>
      || n <= 1
      || (task.configure.trace && task.configure.timeLimit == 0xffff_ffff
          && task.configure.memoryLimit >= TWO_32 - task.pageKb)
  {
    AllowanceInPages(task);
    LimitsCoveredIff(SetupOf(task), n);
  }
}
