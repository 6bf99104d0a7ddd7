/** The value types that the judge's components exchange (protocol.h). */
module Protocol {

  type byte = bv8

  const TWO_31: int := 0x8000_0000
  const TWO_32: int := 0x1_0000_0000

  type uint32 = x: int | 0 <= x < 0x1_0000_0000
  type int32 = x: int | -0x8000_0000 <= x < 0x8000_0000

  /** Storing an integer of any width into a `uint32_t`. */
  function ToUint32(x: int): (r: uint32)
    ensures (x - r) % TWO_32 == 0
  {
    x % TWO_32
  }

  /** Storing an integer of any width into an `int32_t`. */
  function ToInt32(x: int): (r: int32)
    ensures (x - r) % TWO_32 == 0
    ensures -TWO_31 <= x < TWO_31 ==> r == x
    ensures 0 <= x && 0 <= r ==> r <= x
  {
    var low := x % TWO_32;
    if low < TWO_31 then low else low - TWO_32
  }

  datatype JudgeResult =
    | AC   // Accepted
    | PE   // Presentation Error
    | TLE  // Time Limit Exceeded
    | MLE  // Memory Limit Exceeded
    | WA   // Wrong Answer
    | RE   // Runtime Error
    | OLE  // Output Limit Exceeded
    | CE   // Compile Error
    | SE   // System Error
    | UKE  // Unknown Error

  datatype ReturnCode = Ok | Error | Unknown

  datatype Results = Results(
    judgeResult: JudgeResult,
    timeUsed: uint32,
    memoryUsed: uint32,
    signumResult: int,
    runId: uint32,
    compileError: string)

  /** What the constructor of `Results` leaves. */
  const NO_RESULTS := Results(UKE, 0, 0, -1, 0, "")

  /** Outputs longer than this are not compared at all. */
  const MAX_LENGTH: nat := 1000

  datatype ExecuteCondition = ExecuteCondition(
    timeLimit: uint32,    // milliseconds
    memoryLimit: uint32,  // kilobytes
    trace: bool,
    memoryAdd: uint32)    // kilobytes that the language's runtime is excused

  /**
   A file as `fstat` and `mmap` see it.  The two flags say whether those calls succeed on its
   descriptor (for `mmap`, given a positive length).
   */
  datatype FileView = FileView(bytes: seq<byte>, statOk: bool, mapOk: bool)
}
