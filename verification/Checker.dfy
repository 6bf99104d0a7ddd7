/** Comparing a test's output with the expected output (checker.cc, checker.h, memmap.hpp). */
module Checker {
  import opened Protocol

  const NUL: byte := 0

  predicate IsSpace(c: byte) {
    c == 32 || c == 10 || c == 13 || c == 9
  }

  // ---------- specification ----------

  /** The bytes left after deleting every space, newline, carriage return and tab. */
  function Strip(s: seq<byte>): seq<byte> {
    if s == [] then [] else (if IsSpace(s[0]) then [] else [s[0]]) + Strip(s[1..])
  }

  /** The bytes before the first NUL, or all of them. */
  function UpToNul(s: seq<byte>): seq<byte> {
    if s == [] || s[0] == NUL then [] else [s[0]] + UpToNul(s[1..])
  }

  /** Mappings come in whole pages of 4096 bytes. */
  function MappedLength(len: nat): (n: nat)
    ensures len <= n < len + 4096 && n % 4096 == 0
  {
    (len + 4095) / 4096 * 4096
  }

  /** Mapping `len` bytes of a file; memory beyond the end of the file reads as zero. */
  function MappedBytes(bytes: seq<byte>, len: nat): (m: seq<byte>)
    ensures |m| == MappedLength(len)
    ensures forall i | 0 <= i < |m| :: m[i] == if i < |bytes| then bytes[i] else NUL
  {
    seq(MappedLength(len), i requires 0 <= i => if i < |bytes| then bytes[i] else NUL)
  }

  predicate Mappable(file: FileView, len: int) { len > 0 && file.mapOk }

  /**
   The checker's return code and verdict.  The expected file's length passes through 32 bits, so
   only its first `ToInt32` bytes are known to the comparison.
   */
  function CheckSpec(user: FileView, right: FileView): (ReturnCode, JudgeResult) {
    if !user.statOk then (Error, UKE)
    else if |user.bytes| > MAX_LENGTH then (Error, OLE)
    else if !right.statOk then (Error, UKE)
    else
      var rightLen := ToInt32(|right.bytes|);
      if !Mappable(user, |user.bytes|) || !Mappable(right, rightLen) then (Error, UKE)
      else
        var u := MappedBytes(user.bytes, |user.bytes|);
        var r := MappedBytes(right.bytes, rightLen);
        if |user.bytes| == rightLen && UpToNul(u) == UpToNul(r) then (Ok, AC)
        else if Strip(user.bytes) == Strip(right.bytes[..rightLen]) then (Error, PE)
        else (Error, WA)
  }

  // ---------- memory mapping ----------

  class MemoryMap {
    const len: int
    const file: FileView
    var start: array?<byte>
    var isMap: bool

    ghost predicate Valid()
      reads this, start
    {
      isMap ==> start != null && len > 0 && start[..] == MappedBytes(file.bytes, len)
    }

    constructor (len: int, file: FileView)
      ensures Valid() && !isMap && this.len == len && this.file == file
    {
      this.len := len;
      this.file := file;
      start := null;
      isMap := false;
    }

    /** Maps at most once: a second call returns the first call's memory; failure gives null. */
    method Map() returns (memory: array?<byte>)
      requires Valid()
      modifies this
      ensures Valid()
      ensures old(isMap) ==> memory == old(start) && isMap && start == old(start)
      ensures !old(isMap) && !Mappable(file, len) ==> memory == null && !isMap
      ensures !old(isMap) && Mappable(file, len) ==> memory != null && fresh(memory) && isMap && start == memory
      ensures memory != null ==> len > 0 && memory[..] == MappedBytes(file.bytes, len)
    {
      if isMap {
        return start;
      }
      if len <= 0 || !file.mapOk {
        start := null;
        return null;
      }
      start := new byte[MappedLength(len)](i requires 0 <= i =>
        if i < |file.bytes| then file.bytes[i] else NUL);
      isMap := true;
      assert start[..] == MappedBytes(file.bytes, len);
      return start;
    }
  }

  // ---------- the checker ----------

  class Checker {
    const user: FileView   // what the user's output descriptor refers to
    const right: FileView  // what the expected output's descriptor refers to
    var userout: array?<byte>
    var rightout: array?<byte>
    var result: JudgeResult
    var useroutLen: int32
    var rightoutLen: int32
    var isLengthMax: bool

    constructor (user: FileView, right: FileView)
      ensures this.user == user && this.right == right && result == UKE && !isLengthMax
    {
      this.user := user;
      this.right := right;
      userout := null;
      rightout := null;
      result := UKE;
      useroutLen := -1;
      rightoutLen := -1;
      isLengthMax := false;
    }

    method Run() returns (code: ReturnCode)
      requires result == UKE
      modifies this
      ensures (code, result) == CheckSpec(user, right)
    {
      var checked := CheckOutLength();
      if checked == Error {
        return Error;
      }
      var useroutMap := new MemoryMap(useroutLen, user);
      userout := useroutMap.Map();
      if userout == null {
        return Error;
      }
      var rightoutMap := new MemoryMap(rightoutLen, right);
      rightout := rightoutMap.Map();
      if rightout == null {
        return Error;
      }
      assert userout[..useroutLen] == user.bytes;
      assert rightout[..rightoutLen] == right.bytes[..rightoutLen];
      if useroutLen != rightoutLen {
        var pe, _ := IsPE();
        if pe {
          result := PE;
          return Error;
        }
        result := WA;
        return Error;
      }
      assert userout[useroutLen] == NUL;
      var equal, _ := IsEqualStr(userout, rightout, useroutLen);
      if equal {
        result := AC;
        return Ok;
      }
      var pe, _ := IsPE();
      if pe {
        result := PE;
      } else {
        result := WA;
      }
      return Error;
    }

    method CheckOutLength() returns (code: ReturnCode)
      modifies this
      ensures code == Ok <==> user.statOk && |user.bytes| <= MAX_LENGTH && right.statOk
      ensures code == Ok ==> useroutLen == |user.bytes| && rightoutLen == ToInt32(|right.bytes|)
      ensures code != Ok ==> code == Error
      ensures isLengthMax == (old(isLengthMax) || (user.statOk && |user.bytes| > MAX_LENGTH))
      ensures result == if user.statOk && |user.bytes| > MAX_LENGTH then OLE else old(result)
      ensures userout == old(userout) && rightout == old(rightout)
    {
      if !user.statOk {
        return Error;
      }
      if |user.bytes| > MAX_LENGTH {
        result := OLE;
        isLengthMax := true;
        return Error;
      } else {
        useroutLen := |user.bytes|;
      }
      if !right.statOk {
        return Error;
      }
      rightoutLen := ToInt32(|right.bytes|);
      return Ok;
    }

    /**
     C string comparison.  `last` is the highest index read in either string: where they first differ
     or both end.  A NUL at index `n` of the first one bounds it.
     */
    static method IsEqualStr(s: array<byte>, s2: array<byte>, ghost n: nat) returns (equal: bool, ghost last: nat)
      requires n < s.Length && n < s2.Length && s[n] == NUL
      ensures equal <==> UpToNul(s[..]) == UpToNul(s2[..])
      ensures last <= n && (s[last] != s2[last] || s[last] == NUL)
      ensures forall i | 0 <= i < last :: s[i] == s2[i] != NUL
    {
      var c1, c2 := 0, 0;
      ghost var t, t2 := s[..], s2[..];
      assert t[0..] == t && t2[0..] == t2;
      last := 0;
      while s[c1] == s2[c2]
        invariant 0 <= c1 == c2 == last <= n
        invariant forall i | 0 <= i < last :: s[i] == s2[i] != NUL
        invariant SameString(t, t2, c1) == SameString(t, t2, 0)
        decreases n - c1
      {
        if s[c1] == NUL || s2[c2] == NUL {
          break;
        }
        SameStringStep(t, t2, c1);
        c1 := c1 + 1;
        c2 := c2 + 1;
        last := c1;
      }
      SameStringStep(t, t2, c1);
      if s[c1] | s2[c2] == 0 {
        return true, last;
      }
      return false, last;
    }

    /** True exactly when the two outputs differ in white space only; `moves` counts pointer increments. */
    method IsPE() returns (pe: bool, ghost moves: nat)
      requires userout != null && 0 <= useroutLen <= userout.Length
      requires rightout != null && 0 <= rightoutLen <= rightout.Length
      ensures pe <==> Strip(userout[..useroutLen]) == Strip(rightout[..rightoutLen])
      ensures moves <= useroutLen + rightoutLen
    {
      moves := 0;
      var cuser, cright := 0, 0;
      var endUser, endRight := useroutLen, rightoutLen;
      ghost var u, r := userout[..useroutLen], rightout[..rightoutLen];
      MatchesIsStripped(u, 0, r, 0);
      assert u[0..] == u && r[0..] == r;
      while cuser < endUser && cright < endRight
        invariant 0 <= cuser <= endUser && 0 <= cright <= endRight
        invariant Matches(u, cuser, r, cright) == Matches(u, 0, r, 0) && moves == cuser + cright
        decreases endUser - cuser
      {
        while cuser < endUser && IsSpace(userout[cuser])
          invariant cuser <= endUser
          invariant Matches(u, cuser, r, cright) == Matches(u, 0, r, 0) && moves == cuser + cright
        {
          cuser, moves := cuser + 1, moves + 1;
        }
        while cright < endRight && IsSpace(rightout[cright])
          invariant cright <= endRight
          invariant Matches(u, cuser, r, cright) == Matches(u, 0, r, 0) && moves == cuser + cright
        {
          cright, moves := cright + 1, moves + 1;
        }
        if cuser == endUser || cright == endRight {
          break;
        }
        if userout[cuser] != rightout[cright] {
          break;
        }
        cuser, moves := cuser + 1, moves + 1;
        cright, moves := cright + 1, moves + 1;
      }
      while cuser < endUser && IsSpace(userout[cuser])
        invariant cuser <= endUser
        invariant Settled(u, cuser, r, cright)
        invariant Matches(u, cuser, r, cright) == Matches(u, 0, r, 0) && moves == cuser + cright
      {
        cuser, moves := cuser + 1, moves + 1;
      }
      while cright < endRight && IsSpace(rightout[cright])
        invariant cright <= endRight
        invariant Settled(u, cuser, r, cright)
        invariant Matches(u, cuser, r, cright) == Matches(u, 0, r, 0) && moves == cuser + cright
      {
        cright, moves := cright + 1, moves + 1;
      }
      if cuser == endUser && cright == endRight {
        return true, moves;
      }
      return false, moves;
    }
  }

  // ---------- the two pointers ----------

  /** Whether the rests match when both pointers skip white space. */
  ghost predicate Matches(u: seq<byte>, i: nat, r: seq<byte>, j: nat)
    requires i <= |u| && j <= |r|
    decreases |u| - i + |r| - j
  {
    if i < |u| && IsSpace(u[i]) then Matches(u, i + 1, r, j)
    else if j < |r| && IsSpace(r[j]) then Matches(u, i, r, j + 1)
    else if i == |u| || j == |r| then i == |u| && j == |r|
    else u[i] == r[j] && Matches(u, i + 1, r, j + 1)
  }

  /** Where the main loop stops: one side is used up, or two different letters face each other. */
  ghost predicate Settled(u: seq<byte>, i: nat, r: seq<byte>, j: nat)
    requires i <= |u| && j <= |r|
  {
    i == |u| || j == |r| || (!IsSpace(u[i]) && !IsSpace(r[j]) && u[i] != r[j])
  }

  lemma {:induction false} MatchesIsStripped(u: seq<byte>, i: nat, r: seq<byte>, j: nat)
    requires i <= |u| && j <= |r|
    ensures Matches(u, i, r, j) <==> Strip(u[i..]) == Strip(r[j..])
    decreases |u| - i + |r| - j
  {
    if i < |u| {
      StripStep(u, i);
    }
    if j < |r| {
      StripStep(r, j);
    }
    if i < |u| && IsSpace(u[i]) {
      MatchesIsStripped(u, i + 1, r, j);
    } else if j < |r| && IsSpace(r[j]) {
      MatchesIsStripped(u, i, r, j + 1);
    } else if i < |u| && j < |r| {
      MatchesIsStripped(u, i + 1, r, j + 1);
      ConsEqual(u[i], Strip(u[i + 1..]), r[j], Strip(r[j + 1..]));
    }
  }

  lemma ConsEqual(x: byte, s: seq<byte>, y: byte, t: seq<byte>)
    ensures [x] + s == [y] + t <==> x == y && s == t
  {
    if [x] + s == [y] + t {
      assert ([x] + s)[0] == ([y] + t)[0];
      assert ([x] + s)[1..] == s && ([y] + t)[1..] == t;
    }
  }

  ghost predicate SameString(s: seq<byte>, t: seq<byte>, i: nat)
    requires i <= |s| && i <= |t|
  {
    UpToNul(s[i..]) == UpToNul(t[i..])
  }

  lemma SameStringStep(s: seq<byte>, t: seq<byte>, i: nat)
    requires i < |s| && i < |t|
    ensures SameString(s, t, i) <==>
      s[i] == t[i] && (s[i] == NUL || SameString(s, t, i + 1))
  {
    UpToNulStep(s, i);
    UpToNulStep(t, i);
    ConsEqual(s[i], UpToNul(s[i + 1..]), t[i], UpToNul(t[i + 1..]));
  }

  lemma StripStep(s: seq<byte>, i: nat)
    requires i < |s|
    ensures Strip(s[i..]) == (if IsSpace(s[i]) then [] else [s[i]]) + Strip(s[i + 1..])
  {
    assert s[i..][1..] == s[i + 1..];
  }

  lemma UpToNulStep(s: seq<byte>, i: nat)
    requires i < |s|
    ensures UpToNul(s[i..]) == if s[i] == NUL then [] else [s[i]] + UpToNul(s[i + 1..])
  {
    assert s[i..][1..] == s[i + 1..];
  }

  // ---------- what the verdict means ----------

  function Verdict(user: FileView, right: FileView): JudgeResult {
    CheckSpec(user, right).1
  }

  /** The checker lets judging go on exactly when it accepts, and otherwise names the fault. */
  lemma CodeMatchesVerdict(user: FileView, right: FileView)
    ensures CheckSpec(user, right).0 == Ok <==> Verdict(user, right) == AC
    ensures CheckSpec(user, right).0 == Error <==> Verdict(user, right) in {OLE, UKE, PE, WA}
  {
  }

  ghost predicate Readable(file: FileView) {
    file.statOk && file.mapOk && |file.bytes| < TWO_31
  }

  /** Mapping a whole file shows the same C string as its contents. */
  lemma {:induction false} PaddingIsInvisible(bytes: seq<byte>, zeros: seq<byte>)
    requires forall i | 0 <= i < |zeros| :: zeros[i] == NUL
    ensures UpToNul(bytes + zeros) == UpToNul(bytes)
  {
    if bytes == [] {
      assert bytes + zeros == zeros;
    } else {
      assert (bytes + zeros)[1..] == bytes[1..] + zeros;
      PaddingIsInvisible(bytes[1..], zeros);
    }
  }

  lemma WholeFileString(bytes: seq<byte>)
    ensures UpToNul(MappedBytes(bytes, |bytes|)) == UpToNul(bytes)
  {
    var m := MappedBytes(bytes, |bytes|);
    var zeros := m[|bytes|..];
    assert m[..|bytes|] == bytes;
    assert m == m[..|bytes|] + zeros;
    PaddingIsInvisible(bytes, zeros);
  }

  /** The checker over files it can read and measure, in terms of their contents alone. */
  lemma ClosedForm(user: FileView, right: FileView)
    requires Readable(user) && Readable(right)
    ensures Verdict(user, right) ==
      if |user.bytes| > MAX_LENGTH then OLE
      else if user.bytes == [] || right.bytes == [] then UKE
      else if |user.bytes| == |right.bytes| && UpToNul(user.bytes) == UpToNul(right.bytes) then AC
      else if Strip(user.bytes) == Strip(right.bytes) then PE
      else WA
  {
    WholeFileString(user.bytes);
    WholeFileString(right.bytes);
    assert right.bytes[..|right.bytes|] == right.bytes;
  }

  /** An output short enough to be compared, nonempty and readable. */
  ghost predicate Comparable(file: FileView) {
    Readable(file) && 0 < |file.bytes| <= MAX_LENGTH
  }

  ghost predicate NulFree(s: seq<byte>) {
    forall i | 0 <= i < |s| :: s[i] != NUL
  }

  lemma {:induction false} NulFreeString(s: seq<byte>)
    requires NulFree(s)
    ensures UpToNul(s) == s
  {
    if s != [] {
      NulFreeString(s[1..]);
    }
  }

  /** Equal strings of equal length agree everywhere if the first has no NUL before its last byte. */
  lemma {:induction false} StringDetermines(s: seq<byte>, t: seq<byte>)
    requires |s| == |t| > 0 && NulFree(s[..|s| - 1])
    ensures UpToNul(s) == UpToNul(t) <==> s == t
  {
    if UpToNul(s) == UpToNul(t) {
      if |s| > 1 {
        assert s[0] == s[..|s| - 1][0];
        assert s[1..][..|s| - 2] == s[..|s| - 1][1..];
        assert s[0] == t[0] by {
          assert UpToNul(s)[0] == s[0];
        }
        ConsEqual(s[0], UpToNul(s[1..]), t[0], UpToNul(t[1..]));
        StringDetermines(s[1..], t[1..]);
        assert s == [s[0]] + s[1..] && t == [t[0]] + t[1..];
      } else {
        SingleString(s[0], t[0]);
        assert s == [s[0]] && t == [t[0]];
      }
    }
  }

  lemma SingleString(x: byte, y: byte)
    ensures UpToNul([x]) == UpToNul([y]) <==> x == y
  {
    assert UpToNul([x]) == if x == NUL then [] else [x];
    assert UpToNul([y]) == if y == NUL then [] else [y];
  }

  /** Equal outputs are accepted. */
  lemma EqualIsAccepted(user: FileView, right: FileView)
    requires Comparable(user) && Comparable(right) && user.bytes == right.bytes
    ensures Verdict(user, right) == AC
  {
    ClosedForm(user, right);
  }
}
