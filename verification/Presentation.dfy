/** What AC means, and what the relation "AC, or wrong in its white space only" forgives (checker.cc). */
module Presentation {
  import opened Protocol
  import opened Checker

  ghost predicate Lenient(user: FileView, right: FileView) {
    Verdict(user, right) in {AC, PE}
  }

  /** An expected output that can be compared; unlike the user's, its length is not limited to 1000 bytes. */
  ghost predicate Expected(file: FileView) {
    Readable(file) && file.bytes != []
  }

  /** The same relation on contents: equal but for white space, or equally long with equal C strings. */
  ghost predicate Alike(s: seq<byte>, t: seq<byte>) {
    Strip(s) == Strip(t) || (|s| == |t| && UpToNul(s) == UpToNul(t))
  }

  function Plain(s: seq<byte>): FileView {
    FileView(s, true, true)
  }

  lemma LenientIsAlike(user: FileView, right: FileView)
    requires Comparable(user) && Expected(right)
    ensures Lenient(user, right) <==> Alike(user.bytes, right.bytes)
    ensures !Lenient(user, right) <==> Verdict(user, right) == WA
  {
    ClosedForm(user, right);
  }

  // ---------- deleting white space ----------

  ghost predicate NoSpace(s: seq<byte>) {
    forall i | 0 <= i < |s| :: !IsSpace(s[i])
  }

  lemma {:induction false} StripConcat(s: seq<byte>, t: seq<byte>)
    ensures Strip(s + t) == Strip(s) + Strip(t)
  {
    if s == [] {
      assert s + t == t;
    } else {
      var head := if IsSpace(s[0]) then [] else [s[0]];
      assert (s + t)[0] == s[0] && (s + t)[1..] == s[1..] + t;
      calc {
        Strip(s + t);
        head + Strip(s[1..] + t);
        { StripConcat(s[1..], t); }
        head + (Strip(s[1..]) + Strip(t));
        (head + Strip(s[1..])) + Strip(t);
        Strip(s) + Strip(t);
      }
    }
  }

  lemma {:induction false} StripSpace(space: seq<byte>)
    requires forall i | 0 <= i < |space| :: IsSpace(space[i])
    ensures Strip(space) == []
  {
    if space != [] {
      StripSpace(space[1..]);
    }
  }

  lemma NoSpaceCons(c: byte, s: seq<byte>)
    ensures NoSpace([c] + s) <==> !IsSpace(c) && NoSpace(s)
  {
    var r := [c] + s;
    assert r[0] == c && forall i | 0 <= i < |s| :: s[i] == r[i + 1];
  }

  lemma NulFreeCons(c: byte, s: seq<byte>)
    ensures NulFree([c] + s) <==> c != NUL && NulFree(s)
  {
    var r := [c] + s;
    assert r[0] == c && forall i | 0 <= i < |s| :: s[i] == r[i + 1];
  }

  /** Stripping leaves no white space, and is the identity exactly where there was none. */
  lemma {:induction false} StripKeeps(s: seq<byte>)
    ensures NoSpace(Strip(s)) && |Strip(s)| <= |s| && (|Strip(s)| == |s| <==> NoSpace(s))
    ensures NoSpace(s) ==> Strip(s) == s
  {
    if s != [] {
      var rest := s[1..];
      StripKeeps(rest);
      assert s == [s[0]] + rest;
      NoSpaceCons(s[0], rest);
      NoSpaceCons(s[0], Strip(rest));
    }
  }

  /** Stripping keeps every NUL. */
  lemma {:induction false} StripKeepsNul(s: seq<byte>)
    ensures NulFree(Strip(s)) <==> NulFree(s)
  {
    if s != [] {
      var rest := s[1..];
      StripKeepsNul(rest);
      assert s == [s[0]] + rest;
      assert IsSpace(s[0]) ==> s[0] != NUL && Strip(s) == Strip(rest);
      NulFreeCons(s[0], rest);
      NulFreeCons(s[0], Strip(rest));
    }
  }

  lemma StripTwice(s: seq<byte>)
    ensures Strip(Strip(s)) == Strip(s)
  {
    StripKeeps(s);
    StripKeeps(Strip(s));
  }

  /** The last byte in or behind the rest. */
  lemma StripLast(s: seq<byte>, c: byte)
    ensures Strip(s + [c]) == if IsSpace(c) then Strip(s) else Strip(s) + [c]
  {
    StripConcat(s, [c]);
    assert [c][1..] == [];
  }

  // ---------- one pair ----------

  /** Accepting this output means byte equality, whatever the expected output is. */
  ghost predicate AcceptMeansEqual(user: FileView) {
    forall right | Expected(right) :: Verdict(user, right) == AC ==> right.bytes == user.bytes
  }

  /** Acceptance is byte equality exactly for outputs with no NUL before their last byte. */
  lemma AcceptIsEqualityIff(user: FileView)
    requires Comparable(user)
    ensures AcceptMeansEqual(user) <==> NulFree(user.bytes[..|user.bytes| - 1])
  {
    if NulFree(user.bytes[..|user.bytes| - 1]) {
      forall right | Expected(right) && Verdict(user, right) == AC
        ensures right.bytes == user.bytes
      {
        ClosedForm(user, right);
        StringDetermines(user.bytes, right.bytes);
      }
    } else {
      var t := HiddenTwin(user.bytes);
      ClosedForm(user, Plain(t));
      assert Expected(Plain(t)) && Verdict(user, Plain(t)) == AC;
    }
  }

  /** Four gigabytes more, whose length is lost in 32 bits, are not noticed. */
  lemma TruncatedIsAccepted(user: FileView) returns (right: FileView)
    requires Comparable(user)
    ensures right.statOk && right.mapOk && |right.bytes| == |user.bytes| + TWO_32
    ensures Verdict(user, right) == AC
  {
    var n := |user.bytes|;
    right := Plain(user.bytes + seq(TWO_32, i => NUL));
    assert ToInt32(|right.bytes|) == n;
    assert MappedBytes(right.bytes, n) == MappedBytes(user.bytes, n);
  }

  /** Whatever it is compared with, this output is lenient exactly on equal stripped contents. */
  ghost predicate LenientMeansStripped(user: FileView) {
    forall right | Expected(right) :: Lenient(user, right) <==> Strip(user.bytes) == Strip(right.bytes)
  }

  /** Without a NUL before the last byte, AC or PE means equal stripped contents. */
  lemma AlikeIsStripped(s: seq<byte>, t: seq<byte>)
    requires s != [] && NulFree(s[..|s| - 1])
    ensures Alike(s, t) <==> Strip(s) == Strip(t)
  {
    if |s| == |t| {
      StringDetermines(s, t);
    }
  }

  /** Changing a byte behind a NUL leaves the C string alone. */
  lemma {:induction false} HiddenByte(s: seq<byte>, i: nat, j: nat, c: byte)
    requires i < j < |s| && s[i] == NUL
    ensures UpToNul(s[j := c]) == UpToNul(s)
  {
    if s[0] != NUL {
      assert s[j := c][1..] == s[1..][j - 1 := c];
      HiddenByte(s[1..], i - 1, j - 1, c);
    }
  }

  /** With a NUL before the last byte, some equally long output is alike but differs in more than white space. */
  lemma HiddenTwin(s: seq<byte>) returns (t: seq<byte>)
    requires s != [] && !NulFree(s[..|s| - 1])
    ensures |t| == |s| && UpToNul(t) == UpToNul(s) && Strip(t) != [] && Strip(t) != Strip(s)
    ensures t[..|s| - 1] == s[..|s| - 1]
  {
    var n := |s| - 1;
    var i :| 0 <= i < n && s[..n][i] == NUL;
    var z: byte := if s[n] == 65 then 66 else 65;
    t := s[n := z];
    HiddenByte(s, i, n, z);
    assert s == s[..n] + [s[n]] && t == s[..n] + [z];
    StripLast(s[..n], s[n]);
    StripLast(s[..n], z);
    assert Strip(t)[|Strip(t)| - 1] == z;
  }

  /** AC or PE is equality of the stripped contents exactly for outputs with no NUL before their last byte. */
  lemma LenientIff(user: FileView)
    requires Comparable(user)
    ensures LenientMeansStripped(user) <==> NulFree(user.bytes[..|user.bytes| - 1])
  {
    if NulFree(user.bytes[..|user.bytes| - 1]) {
      forall right | Expected(right)
        ensures Lenient(user, right) <==> Strip(user.bytes) == Strip(right.bytes)
      {
        LenientIsAlike(user, right);
        AlikeIsStripped(user.bytes, right.bytes);
      }
    } else {
      var t := HiddenTwin(user.bytes);
      LenientIsAlike(user, Plain(t));
      assert Expected(Plain(t));
    }
  }

  /** Every comparable output is lenient with itself, and the order of the two does not matter. */
  lemma LenientSymmetric(user: FileView, right: FileView)
    requires Comparable(user) && Comparable(right)
    ensures Lenient(user, user)
    ensures Lenient(user, right) <==> Lenient(right, user)
  {
    LenientIsAlike(user, user);
    LenientIsAlike(user, right);
    LenientIsAlike(right, user);
  }

  // ---------- editing white space ----------

  /** No expected output tells the two apart, beyond a presentation error. */
  ghost predicate SameSide(user: FileView, edited: FileView) {
    forall right | Expected(right) :: Verdict(user, right) == WA <==> Verdict(edited, right) == WA
  }

  /** Neither has a NUL before its last byte, or they have the same length and the same C string. */
  ghost predicate EqualSighted(s: seq<byte>, t: seq<byte>)
    requires s != [] && t != []
  {
    || (NulFree(s[..|s| - 1]) && NulFree(t[..|t| - 1]))
    || (|s| == |t| && UpToNul(s) == UpToNul(t))
  }

  /** A NUL before the last byte lets an equally long expected output tell such contents apart. */
  lemma ToldApart(user: FileView, edited: FileView)
    requires Comparable(user) && Comparable(edited) && Strip(user.bytes) == Strip(edited.bytes)
    requires !NulFree(user.bytes[..|user.bytes| - 1])
    requires |user.bytes| != |edited.bytes| || UpToNul(user.bytes) != UpToNul(edited.bytes)
    ensures !SameSide(user, edited) && !SameSide(edited, user)
  {
    var t := HiddenTwin(user.bytes);
    var right := Plain(t);
    LenientIsAlike(user, right);
    LenientIsAlike(edited, right);
    assert Expected(right) && !(Verdict(user, right) == WA <==> Verdict(edited, right) == WA);
  }

  /**
   Editing white space anywhere never moves an output between {AC, PE} and WA, exactly when neither
   version has a NUL before its last byte, or both have the same length and the same C string.
   */
  lemma WhitespaceIsOnlyPresentation(user: FileView, edited: FileView)
    requires Comparable(user) && Comparable(edited) && Strip(user.bytes) == Strip(edited.bytes)
    ensures SameSide(user, edited) <==> EqualSighted(user.bytes, edited.bytes)
  {
    var s, t := user.bytes, edited.bytes;
    if EqualSighted(s, t) {
      forall right | Expected(right) ensures Verdict(user, right) == WA <==> Verdict(edited, right) == WA {
        LenientIsAlike(user, right);
        LenientIsAlike(edited, right);
        if NulFree(s[..|s| - 1]) && NulFree(t[..|t| - 1]) {
          AlikeIsStripped(s, right.bytes);
          AlikeIsStripped(t, right.bytes);
        }
      }
    } else if !NulFree(s[..|s| - 1]) {
      ToldApart(user, edited);
    } else {
      ToldApart(edited, user);
    }
  }

  /** `after` is `before` with white space inserted at one place. */
  ghost predicate Padded(before: seq<byte>, after: seq<byte>, at: nat, space: seq<byte>) {
    && at <= |before|
    && (forall i | 0 <= i < |space| :: IsSpace(space[i]))
    && after == before[..at] + space + before[at..]
  }

  lemma PaddingKeepsStrip(before: seq<byte>, after: seq<byte>, at: nat, space: seq<byte>)
    requires Padded(before, after, at, space)
    ensures Strip(after) == Strip(before)
  {
    var head, tail := before[..at], before[at..];
    assert Strip(before) == Strip(head) + Strip(tail) by {
      StripConcat(head, tail);
      assert before == head + tail;
    }
    assert Strip(after) == Strip(head + space) + Strip(tail) by {
      StripConcat(head + space, tail);
      assert after == head + space + tail;
    }
    assert Strip(head + space) == Strip(head) by {
      StripConcat(head, space);
      StripSpace(space);
    }
  }

  /** For one insertion, which changes the length, only the NULs matter. */
  lemma InsertionIff(user: FileView, edited: FileView, at: nat, space: seq<byte>)
    requires Comparable(user) && Comparable(edited) && space != []
    requires Padded(user.bytes, edited.bytes, at, space)
    ensures SameSide(user, edited) <==>
      NulFree(user.bytes[..|user.bytes| - 1]) && NulFree(edited.bytes[..|edited.bytes| - 1])
  {
    PaddingKeepsStrip(user.bytes, edited.bytes, at, space);
    WhitespaceIsOnlyPresentation(user, edited);
  }

  // ---------- chains of comparisons ----------

  /** From this output two lenient verdicts in a row always make a third. */
  ghost predicate Transitive(a: FileView) {
    forall b, c | Expected(b) && Expected(c) :: Lenient(a, b) && Lenient(b, c) ==> Lenient(a, c)
  }

  /** At the greatest length, without white space, and with one NUL, which is the last byte. */
  ghost predicate Sealed(s: seq<byte>) {
    |s| == MAX_LENGTH && s[|s| - 1] == NUL && NulFree(s[..|s| - 1]) && NoSpace(s)
  }

  /** NUL-free contents, or such that only their equals compare as alike. */
  ghost predicate Chainable(s: seq<byte>) {
    NulFree(s) || Sealed(s)
  }

  lemma NulFreeChains(s: seq<byte>, t: seq<byte>, u: seq<byte>)
    requires s != [] && t != [] && NulFree(s)
    requires Alike(s, t) && Alike(t, u)
    ensures Alike(s, u)
  {
    AlikeIsStripped(s, t);
    StripKeepsNul(s);
    StripKeepsNul(t);
    AlikeIsStripped(t, u);
  }

  /** No other output of at most 1000 bytes is alike. */
  lemma SealedIsAlone(s: seq<byte>, t: seq<byte>)
    requires Sealed(s) && |t| <= MAX_LENGTH && Alike(s, t)
    ensures t == s
  {
    AlikeIsStripped(s, t);
    StripKeeps(s);
    StripKeeps(t);
  }

  ghost predicate Breaks(s: seq<byte>, t: seq<byte>, u: seq<byte>) {
    0 < |t| <= MAX_LENGTH && 0 < |u| <= MAX_LENGTH + 1 && Alike(s, t) && Alike(t, u) && !Alike(s, u)
  }

  /** A NUL before the last byte: hide a letter behind it, then add white space. */
  lemma BreakTwin(s: seq<byte>) returns (t: seq<byte>, u: seq<byte>)
    requires 0 < |s| <= MAX_LENGTH && !NulFree(s[..|s| - 1])
    ensures Breaks(s, t, u)
  {
    t := HiddenTwin(s);
    u := t + [32];
    StripLast(t, 32);
  }

  /** Behind a NUL, white space and a letter look the same to the string comparison only. */
  lemma HideLetter(s: seq<byte>, k: nat)
    requires k < |s| && s[k] == NUL
    ensures UpToNul(s + [32]) == UpToNul(s + [65])
    ensures Strip(s + [32]) == Strip(s) && Strip(s + [65]) == Strip(s) + [65]
  {
    StripLast(s, 32);
    StripLast(s, 65);
    HiddenByte(s + [32], k, |s|, 65);
    assert s + [65] == (s + [32])[|s| := 65];
  }

  /** A NUL that is last, and room for one more letter: drop the white space, hide a letter behind the NUL. */
  lemma BreakBehind(s: seq<byte>) returns (t: seq<byte>, u: seq<byte>)
    requires 0 < |s| <= MAX_LENGTH && s[|s| - 1] == NUL && NulFree(s[..|s| - 1])
    requires |s| < MAX_LENGTH || !NoSpace(s)
    ensures Breaks(s, t, u)
  {
    var p := Strip(s);
    StripKeeps(s);
    StripTwice(s);
    assert p == Strip(s[..|s| - 1]) + [NUL] by {
      assert s == s[..|s| - 1] + [NUL];
      StripLast(s[..|s| - 1], NUL);
    }
    t, u := p + [32], p + [65];
    HideLetter(p, |p| - 1);
    AlikeIsStripped(s, u);
  }

  lemma BreakExists(s: seq<byte>) returns (t: seq<byte>, u: seq<byte>)
    requires 0 < |s| <= MAX_LENGTH && !Chainable(s)
    ensures Breaks(s, t, u)
  {
    var n := |s| - 1;
    if !NulFree(s[..n]) {
      t, u := BreakTwin(s);
    } else {
      assert s == s[..n] + [s[n]];
      t, u := BreakBehind(s);
    }
  }

  /** A lenient verdict needs an output of at most 1000 bytes. */
  lemma LenientIsComparable(user: FileView, right: FileView)
    requires Expected(user) && Expected(right) && Lenient(user, right)
    ensures Comparable(user) && Alike(user.bytes, right.bytes)
  {
    ClosedForm(user, right);
  }

  lemma ChainableChains(a: FileView, b: FileView, c: FileView)
    requires Comparable(a) && Chainable(a.bytes) && Expected(b) && Expected(c)
    requires Lenient(a, b) && Lenient(b, c)
    ensures Lenient(a, c)
  {
    LenientIsComparable(a, b);
    LenientIsComparable(b, c);
    if NulFree(a.bytes) {
      NulFreeChains(a.bytes, b.bytes, c.bytes);
    } else {
      SealedIsAlone(a.bytes, b.bytes);
    }
    LenientIsAlike(a, c);
  }

  /**
   "Accepted or presentation error" can be chained from an output exactly when that output is free
   of NULs, or it is 1000 bytes without white space whose only NUL is the last one.  Nothing is asked
   of the other two outputs.
   */
  lemma TransitiveIff(a: FileView)
    requires Comparable(a)
    ensures Transitive(a) <==> Chainable(a.bytes)
    ensures |a.bytes| < MAX_LENGTH ==> (Transitive(a) <==> NulFree(a.bytes))
  {
    if Chainable(a.bytes) {
      forall b, c | Expected(b) && Expected(c) && Lenient(a, b) && Lenient(b, c) ensures Lenient(a, c) {
        ChainableChains(a, b, c);
      }
    } else {
      var t, u := BreakExists(a.bytes);
      LenientIsAlike(a, Plain(t));
      LenientIsAlike(Plain(t), Plain(u));
      LenientIsAlike(a, Plain(u));
      assert Expected(Plain(t)) && Expected(Plain(u));
    }
  }

  /** A chain that breaks: accepted, then a presentation error, but a wrong answer across. */
  lemma BrokenChain(a: FileView, b: FileView, c: FileView)
    requires a == Plain([NUL, 65]) && b == Plain([NUL, 32]) && c == Plain([NUL])
    ensures Verdict(a, b) == AC && Verdict(b, c) == PE && Verdict(a, c) == WA
  {
    ClosedForm(a, b);
    ClosedForm(b, c);
    ClosedForm(a, c);
    assert Strip([65]) == [65] && Strip([32]) == [];
    assert a.bytes[1..] == [65] && b.bytes[1..] == [32] && c.bytes[1..] == [];
    assert Strip(a.bytes) == [NUL] + [65] && Strip(b.bytes) == [NUL] + [] && Strip(c.bytes) == [NUL] + [];
  }
}
