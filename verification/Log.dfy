/**
 One `Log` object (log.hpp): which pieces its operators put into the shared output.  Every line is a
 chain of data tokens closed by the function that `endl()` returns.  C++ does not fix when the
 argument `endl()` is evaluated, so a line also says after how many of its tokens that happens.
 */
module Log {

  /** What one insertion into the output stream writes. */
  datatype Piece =
    | Stamp
    | Prefix(text: string)
    | Data(text: string)
    | Newline

  /** A line of at least one token; `endl()` is evaluated after `endlAt` of them. */
  datatype LineSource = LineSource(tokens: seq<string>, endlAt: nat)

  ghost predicate WellFormed(line: LineSource) {
    |line.tokens| >= 1 && line.endlAt <= |line.tokens|
  }

  /** `isTimePrefix_` and `isPrefix_`. */
  datatype Flags = Flags(time: bool, prefix: bool)

  /** The flags of a log whose prefix was set before its first line. */
  const INITIAL := Flags(true, true)

  /** Time stamp and prefix, as far as they are asked for, in this order. */
  function Header(prefix: string, time: bool, name: bool): (r: seq<Piece>)
    ensures |r| == (if time then 1 else 0) + (if name then 1 else 0)
    ensures time ==> r[0] == Stamp
    ensures name ==> r[|r| - 1] == Prefix(prefix)
  {
    (if time then [Stamp] else []) + (if name then [Prefix(prefix)] else [])
  }

  /** What one token puts into the output. */
  function TokenPieces(flags: Flags, prefix: string, token: string): seq<Piece> {
    Header(prefix, flags.time, flags.prefix) + [Data(token)]
  }

  const CLEARED := Flags(false, false)
  const RAISED := Flags(true, true)

  /** The rest of a line from token `tok` on; `armed` says whether `endl()` was already evaluated. */
  function Rest(line: LineSource, prefix: string, flags: Flags, tok: nat, armed: bool): (seq<Piece>, Flags)
    requires tok <= |line.tokens|
    decreases |line.tokens| - tok, if armed then 0 else 1
  {
    if !armed && line.endlAt == tok then Rest(line, prefix, RAISED, tok, true)
    else if tok == |line.tokens| then ([Newline], flags)
    else
      var (later, end) := Rest(line, prefix, CLEARED, tok + 1, armed);
      (TokenPieces(flags, prefix, line.tokens[tok]) + later, end)
  }

  function LinePieces(line: LineSource, prefix: string, flags: Flags): seq<Piece> {
    Rest(line, prefix, flags, 0, false).0
  }

  function FlagsAfter(line: LineSource, prefix: string, flags: Flags): Flags {
    Rest(line, prefix, flags, 0, false).1
  }

  // ---------- the class ----------

  /** The stream and the mutex that all logs share; `owner` is the log that holds the mutex. */
  class Shared {
    var text: seq<Piece>
    var owner: Log?

    constructor ()
      ensures text == [] && owner == null
    {
      text := [];
      owner := null;
    }
  }

  class Log {
    const out: Shared
    const prefix: string
    var flags: Flags
    var isLock: bool

    ghost predicate Valid()
      reads this, out
    {
      isLock <==> out.owner == this
    }

    /** A log after `setPrefix` and `setLog`. */
    constructor (out: Shared, prefix: string)
      ensures this.out == out && this.prefix == prefix && flags == INITIAL && !isLock
    {
      this.out := out;
      this.prefix := prefix;
      flags := INITIAL;
      isLock := false;
    }

    /** `lockofLog`; the caller waits until no other log holds the mutex. */
    method LockOfLog()
      requires Valid() && (out.owner == null || out.owner == this)
      modifies this`isLock, out`owner
      ensures Valid() && isLock
    {
      if !isLock {
        out.owner := this;
        isLock := true;
      }
    }

    method UnlockOfLog()
      requires Valid()
      modifies this`isLock, out`owner
      ensures Valid() && !isLock
      ensures out.owner == if old(isLock) then null else old(out.owner)
    {
      if isLock {
        isLock := false;
        out.owner := null;
      }
    }

    /** The evaluation of `endl()`. */
    method Endl()
      modifies this`flags
      ensures flags == RAISED
    {
      flags := flags.(prefix := true);
      flags := flags.(time := true);
    }

    /** `<<` with data. */
    method Put(data: string)
      requires Valid() && (out.owner == null || out.owner == this)
      modifies this, out
      ensures Valid() && isLock && flags == CLEARED
      ensures out.text == old(out.text) + TokenPieces(old(flags), prefix, data)
    {
      LockOfLog();
      if flags.time {
        out.text := out.text + [Stamp];
        flags := flags.(time := false);
      }
      if flags.prefix {
        out.text := out.text + [Prefix(prefix)];
        flags := flags.(prefix := false);
      }
      out.text := out.text + [Data(data)];
    }

    /** `<<` with the function that `endl()` returned. */
    method PutEnd()
      requires Valid()
      modifies this`isLock, out
      ensures Valid() && !isLock
      ensures out.text == old(out.text) + [Newline]
      ensures out.owner == if old(isLock) then null else old(out.owner)
    {
      out.text := out.text + [Newline];
      UnlockOfLog();
    }

    /** One statement of the program, run without interference: it leaves the mutex free. */
    method WriteLine(line: LineSource)
      requires Valid() && out.owner == null && WellFormed(line)
      modifies this, out
      ensures Valid() && out.owner == null
      ensures out.text == old(out.text) + LinePieces(line, prefix, old(flags))
      ensures flags == FlagsAfter(line, prefix, old(flags))
    {
      var tok := 0;
      var armed := false;
      ghost var whole := Rest(line, prefix, flags, 0, false);
      while tok < |line.tokens|
        invariant 0 <= tok <= |line.tokens|
        invariant Valid() && (if tok == 0 then out.owner == null else isLock)
        invariant armed == (line.endlAt < tok)
        invariant out.text + Rest(line, prefix, flags, tok, armed).0 == old(out.text) + whole.0
        invariant Rest(line, prefix, flags, tok, armed).1 == whole.1
      {
        if line.endlAt == tok {
          Endl();
          armed := true;
        }
        ghost var pieces := TokenPieces(flags, prefix, line.tokens[tok]);
        ghost var later := Rest(line, prefix, CLEARED, tok + 1, armed).0;
        assert out.text + (pieces + later) == (out.text + pieces) + later;
        Put(line.tokens[tok]);
        tok := tok + 1;
      }
      if line.endlAt == tok {
        Endl();
        armed := true;
      }
      PutEnd();
    }
  }

  // ---------- stamps ----------

  /** A thread's flags before its line `i`. */
  function FlagsBefore(lines: seq<LineSource>, prefix: string, i: nat): Flags
    requires i <= |lines|
  {
    if i == 0 then INITIAL else FlagsAfter(lines[i - 1], prefix, FlagsBefore(lines, prefix, i - 1))
  }

  function LineText(lines: seq<LineSource>, prefix: string, i: nat): seq<Piece>
    requires i < |lines|
  {
    LinePieces(lines[i], prefix, FlagsBefore(lines, prefix, i))
  }

  function DataOf(tokens: seq<string>): (pieces: seq<Piece>)
    ensures |pieces| == |tokens|
    ensures forall i | 0 <= i < |pieces| :: pieces[i] == Data(tokens[i])
  {
    seq(|tokens|, i requires 0 <= i < |tokens| => Data(tokens[i]))
  }

  lemma DataStep(tokens: seq<string>, i: nat, j: nat)
    requires i < j <= |tokens|
    ensures DataOf(tokens[i..j]) == [Data(tokens[i])] + DataOf(tokens[i + 1..j])
  {
  }

  /** The line as meant: one time stamp, one prefix, the data, a newline. */
  function Proper(line: LineSource, prefix: string): seq<Piece> {
    [Stamp, Prefix(prefix)] + DataOf(line.tokens) + [Newline]
  }

  predicate Early(line: LineSource) { line.endlAt == 0 }

  predicate Late(line: LineSource) { line.endlAt == |line.tokens| }

  /** Once the flags are down and `endl()` is over, only data follows. */
  lemma {:induction false} PlainRest(line: LineSource, prefix: string, tok: nat)
    requires tok <= |line.tokens|
    ensures Rest(line, prefix, CLEARED, tok, true).0 == DataOf(line.tokens[tok..|line.tokens|]) + [Newline]
    ensures Rest(line, prefix, CLEARED, tok, true).1 == CLEARED
    decreases |line.tokens| - tok
  {
    if tok < |line.tokens| {
      PlainRest(line, prefix, tok + 1);
      DataStep(line.tokens, tok, |line.tokens|);
    } else {
      assert DataOf(line.tokens[tok..|line.tokens|]) == [];
    }
  }

  /** With the flags down, a late `endl()` adds nothing to the line and raises the flags. */
  lemma {:induction false} LateRest(line: LineSource, prefix: string, tok: nat)
    requires 0 < tok <= |line.tokens| && Late(line)
    ensures Rest(line, prefix, CLEARED, tok, false).0 == DataOf(line.tokens[tok..|line.tokens|]) + [Newline]
    ensures Rest(line, prefix, CLEARED, tok, false).1 == RAISED
    decreases |line.tokens| - tok
  {
    if tok < |line.tokens| {
      LateRest(line, prefix, tok + 1);
      DataStep(line.tokens, tok, |line.tokens|);
    } else {
      assert DataOf(line.tokens[tok..|line.tokens|]) == [];
    }
  }

  /** An `endl()` between two tokens puts a second stamp in front of the second of them. */
  lemma {:induction false} MidRest(line: LineSource, prefix: string, tok: nat)
    requires 0 < tok <= line.endlAt < |line.tokens|
    ensures Rest(line, prefix, CLEARED, tok, false).1 == CLEARED
    ensures line.endlAt - tok < |Rest(line, prefix, CLEARED, tok, false).0|
    ensures Rest(line, prefix, CLEARED, tok, false).0[line.endlAt - tok] == Stamp
    decreases |line.tokens| - tok
  {
    if tok < line.endlAt {
      MidRest(line, prefix, tok + 1);
    } else {
      PlainRest(line, prefix, tok + 1);
    }
  }

  lemma Regroup(a: seq<Piece>, b: seq<Piece>, c: seq<Piece>, d: seq<Piece>)
    ensures (a + b) + (c + d) == a + (b + c) + d
  {
  }

  lemma ProperSplit(line: LineSource, prefix: string)
    requires WellFormed(line)
    ensures Proper(line, prefix) ==
      TokenPieces(RAISED, prefix, line.tokens[0]) + (DataOf(line.tokens[1..|line.tokens|]) + [Newline])
  {
    var n := |line.tokens|;
    var head, first, rest := Header(prefix, true, true), [Data(line.tokens[0])], DataOf(line.tokens[1..n]);
    calc {
      TokenPieces(RAISED, prefix, line.tokens[0]) + (rest + [Newline]);
      (head + first) + (rest + [Newline]);
      { Regroup(head, first, rest, [Newline]); }
      head + (first + rest) + [Newline];
      { WholeData(line.tokens); }
      head + DataOf(line.tokens) + [Newline];
      { WholeHeader(prefix); }
      Proper(line, prefix);
    }
  }

  lemma WholeHeader(prefix: string)
    ensures Header(prefix, true, true) == [Stamp, Prefix(prefix)]
  {
  }

  lemma WholeData(tokens: seq<string>)
    requires tokens != []
    ensures DataOf(tokens) == [Data(tokens[0])] + DataOf(tokens[1..|tokens|])
  {
    DataStep(tokens, 0, |tokens|);
    assert tokens[0..|tokens|] == tokens;
  }

  lemma EarlyShape(line: LineSource, prefix: string, flags: Flags)
    requires WellFormed(line) && Early(line)
    ensures LinePieces(line, prefix, flags) == Proper(line, prefix)
    ensures FlagsAfter(line, prefix, flags) == CLEARED
  {
    assert Rest(line, prefix, flags, 0, false) == Rest(line, prefix, RAISED, 0, true);
    PlainRest(line, prefix, 1);
    ProperSplit(line, prefix);
  }

  lemma LateShape(line: LineSource, prefix: string, flags: Flags)
    requires WellFormed(line) && Late(line) && flags in {RAISED, CLEARED}
    ensures LinePieces(line, prefix, flags) == Proper(line, prefix) <==> flags == RAISED
    ensures FlagsAfter(line, prefix, flags) == RAISED
  {
    LateRest(line, prefix, 1);
    ProperSplit(line, prefix);
    if flags == CLEARED {
      assert LinePieces(line, prefix, flags)[0] == Data(line.tokens[0]);
      assert Proper(line, prefix)[0] == Stamp;
    }
  }

  lemma MidShape(line: LineSource, prefix: string, flags: Flags)
    requires WellFormed(line) && !Early(line) && !Late(line) && flags in {RAISED, CLEARED}
    ensures LinePieces(line, prefix, flags) != Proper(line, prefix)
    ensures FlagsAfter(line, prefix, flags) == CLEARED
  {
    MidRest(line, prefix, 1);
    var head := TokenPieces(flags, prefix, line.tokens[0]);
    var rest := Rest(line, prefix, CLEARED, 1, false).0;
    var at := |head| + line.endlAt - 1;
    assert LinePieces(line, prefix, flags) == head + rest;
    assert (head + rest)[at] == rest[line.endlAt - 1];
    assert 0 < at && (at < |Proper(line, prefix)| ==> Proper(line, prefix)[at] != Stamp);
  }

  /** What a line of one thread looks like, from when its `endl()` is evaluated and its flags. */
  lemma LineShape(line: LineSource, prefix: string, flags: Flags)
    requires WellFormed(line) && flags in {RAISED, CLEARED}
    ensures LinePieces(line, prefix, flags) == Proper(line, prefix) <==> Early(line) || (Late(line) && flags == RAISED)
    ensures FlagsAfter(line, prefix, flags) == if Late(line) then RAISED else CLEARED
  {
    if Early(line) {
      EarlyShape(line, prefix, flags);
    } else if Late(line) {
      LateShape(line, prefix, flags);
    } else {
      MidShape(line, prefix, flags);
    }
  }

  lemma {:induction false} FlagsBeforeLine(lines: seq<LineSource>, prefix: string, i: nat)
    requires i <= |lines| && forall k | 0 <= k < |lines| :: WellFormed(lines[k])
    ensures FlagsBefore(lines, prefix, i) == if i == 0 || Late(lines[i - 1]) then RAISED else CLEARED
  {
    if i > 0 {
      FlagsBeforeLine(lines, prefix, i - 1);
      LineShape(lines[i - 1], prefix, FlagsBefore(lines, prefix, i - 1));
    }
  }

  ghost predicate StampedOnce(lines: seq<LineSource>, prefix: string, i: nat)
    requires i < |lines|
  {
    LineText(lines, prefix, i) == Proper(lines[i], prefix)
  }

  /** Line `i` evaluates `endl()` before its tokens, or after them like the line before. */
  predicate OrderKept(lines: seq<LineSource>, i: nat)
    requires i < |lines|
  {
    Early(lines[i]) || (Late(lines[i]) && (i == 0 || Late(lines[i - 1])))
  }

  /**
   A line carries exactly one stamp and one prefix, at its start, exactly when its `endl()` is
   evaluated before all its tokens, or after all of them and so was the previous line's.
   */
  lemma StampedOnceIff(lines: seq<LineSource>, prefix: string, i: nat)
    requires i < |lines| && forall k | 0 <= k < |lines| :: WellFormed(lines[k])
    ensures StampedOnce(lines, prefix, i) <==> OrderKept(lines, i)
  {
    FlagsBeforeLine(lines, prefix, i);
    LineShape(lines[i], prefix, FlagsBefore(lines, prefix, i));
  }

  /** Either order of evaluation, kept throughout, stamps every line properly. */
  lemma OneOrderIsProper(lines: seq<LineSource>, prefix: string, i: nat)
    requires forall k | 0 <= k < |lines| :: WellFormed(lines[k])
    requires (forall k | 0 <= k < |lines| :: Early(lines[k])) || (forall k | 0 <= k < |lines| :: Late(lines[k]))
    requires i < |lines|
    ensures LineText(lines, prefix, i) == Proper(lines[i], prefix)
  {
    StampedOnceIff(lines, prefix, i);
  }

  // ---------- every line, piece by piece ----------

  /** The rest of a line whose `endl()` comes between two tokens. */
  lemma {:induction false} MidPieces(line: LineSource, prefix: string, tok: nat)
    requires 0 < tok <= line.endlAt < |line.tokens|
    ensures Rest(line, prefix, CLEARED, tok, false).0 ==
      DataOf(line.tokens[tok..line.endlAt]) + [Stamp, Prefix(prefix)] + DataOf(line.tokens[line.endlAt..|line.tokens|])
        + [Newline]
    ensures Rest(line, prefix, CLEARED, tok, false).1 == CLEARED
    decreases |line.tokens| - tok
  {
    var e, n := line.endlAt, |line.tokens|;
    var second, data := [Stamp, Prefix(prefix)], DataOf(line.tokens[e..n]);
    var first := [Data(line.tokens[tok])];
    if tok < e {
      MidPieces(line, prefix, tok + 1);
      var between := DataOf(line.tokens[tok + 1..e]);
      calc {
        Rest(line, prefix, CLEARED, tok, false).0;
        TokenPieces(CLEARED, prefix, line.tokens[tok]) + (between + second + data + [Newline]);
        { assert TokenPieces(CLEARED, prefix, line.tokens[tok]) == first; }
        first + (between + second + data + [Newline]);
        { Push(first, between, second, data, [Newline]); }
        (first + between) + second + data + [Newline];
        { DataStep(line.tokens, tok, e); }
        DataOf(line.tokens[tok..e]) + second + data + [Newline];
      }
    } else {
      PlainRest(line, prefix, tok + 1);
      var later := DataOf(line.tokens[tok + 1..n]);
      calc {
        Rest(line, prefix, CLEARED, tok, false).0;
        Rest(line, prefix, RAISED, tok, true).0;
        { WholeHeader(prefix); }
        (second + first) + (later + [Newline]);
        { Regroup(second, first, later, [Newline]); }
        second + (first + later) + [Newline];
        { DataStep(line.tokens, tok, n); }
        second + data + [Newline];
        { assert DataOf(line.tokens[tok..e]) == []; }
        DataOf(line.tokens[tok..e]) + second + data + [Newline];
      }
    }
  }

  lemma Push(first: seq<Piece>, a: seq<Piece>, b: seq<Piece>, c: seq<Piece>, d: seq<Piece>)
    ensures first + (a + b + c + d) == (first + a) + b + c + d
  {
  }

  function Shape(line: LineSource, prefix: string, first: seq<Piece>, second: seq<Piece>): seq<Piece>
    requires line.endlAt <= |line.tokens|
  {
    first + DataOf(line.tokens[..line.endlAt]) + second + DataOf(line.tokens[line.endlAt..]) + [Newline]
  }

  lemma EarlyPieces(line: LineSource, prefix: string, flags: Flags)
    requires WellFormed(line) && line.endlAt == 0
    ensures LinePieces(line, prefix, flags) == Shape(line, prefix, Header(prefix, true, true), [])
  {
    EarlyShape(line, prefix, flags);
    assert DataOf(line.tokens[..0]) == [] && line.tokens[0..] == line.tokens;
  }

  /** The first token's pieces are a header and its data. */
  lemma FirstPieces(line: LineSource, prefix: string, flags: Flags, rest: seq<Piece>)
    requires WellFormed(line) && line.endlAt > 0
    ensures TokenPieces(flags, prefix, line.tokens[0]) + (DataOf(line.tokens[1..line.endlAt]) + rest) ==
      Header(prefix, flags.time, flags.prefix) + DataOf(line.tokens[..line.endlAt]) + rest
  {
    var e := line.endlAt;
    var head, first, data := Header(prefix, flags.time, flags.prefix), [Data(line.tokens[0])], DataOf(line.tokens[1..e]);
    calc {
      TokenPieces(flags, prefix, line.tokens[0]) + (data + rest);
      (head + first) + (data + rest);
      { Regroup(head, first, data, rest); }
      head + (first + data) + rest;
      { DataStep(line.tokens, 0, e); assert line.tokens[..e] == line.tokens[0..e]; }
      head + DataOf(line.tokens[..e]) + rest;
    }
  }

  lemma LatePieces(line: LineSource, prefix: string, flags: Flags)
    requires WellFormed(line) && line.endlAt == |line.tokens|
    ensures LinePieces(line, prefix, flags) ==
      Shape(line, prefix, Header(prefix, flags.time, flags.prefix), [])
  {
    LateRest(line, prefix, 1);
    FirstPieces(line, prefix, flags, [Newline]);
    assert DataOf(line.tokens[line.endlAt..]) == [];
  }

  lemma MiddlePieces(line: LineSource, prefix: string, flags: Flags)
    requires WellFormed(line) && 0 < line.endlAt < |line.tokens|
    ensures LinePieces(line, prefix, flags) ==
      Shape(line, prefix, Header(prefix, flags.time, flags.prefix), Header(prefix, true, true))
  {
    var e := line.endlAt;
    var second, data := [Stamp, Prefix(prefix)], DataOf(line.tokens[e..|line.tokens|]);
    MidPieces(line, prefix, 1);
    Assoc4(DataOf(line.tokens[1..e]), second, data, [Newline]);
    FirstPieces(line, prefix, flags, second + data + [Newline]);
    Assoc4(Header(prefix, flags.time, flags.prefix) + DataOf(line.tokens[..e]), second, data, [Newline]);
    assert line.tokens[e..] == line.tokens[e..|line.tokens|] && Header(prefix, true, true) == second;
  }

  lemma Assoc4(a: seq<Piece>, b: seq<Piece>, c: seq<Piece>, d: seq<Piece>)
    ensures a + b + c + d == a + (b + c + d)
  {
  }

  /**
   A line is a header, its data up to where `endl()` is evaluated, a second header there unless that
   is before the first token or after the last, the other data, and a newline.  The first header is
   whole if `endl()` comes first, and otherwise what the flags ask for.
   */
  lemma LinePiecesAre(line: LineSource, prefix: string, flags: Flags)
    requires WellFormed(line)
    ensures var e, n := line.endlAt, |line.tokens|;
      LinePieces(line, prefix, flags) ==
        Header(prefix, flags.time || e == 0, flags.prefix || e == 0)
        + DataOf(line.tokens[..e])
        + Header(prefix, 0 < e < n, 0 < e < n)
        + DataOf(line.tokens[e..])
        + [Newline]
  {
    if line.endlAt == 0 {
      EarlyPieces(line, prefix, flags);
    } else if line.endlAt == |line.tokens| {
      LatePieces(line, prefix, flags);
    } else {
      MiddlePieces(line, prefix, flags);
    }
  }
}
