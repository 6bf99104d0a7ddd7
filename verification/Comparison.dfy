/** The checker's verdicts byte by byte, without reference to how they are computed (checker.cc). */
module Comparison {
  import opened Protocol
  import opened Checker
  import opened Presentation

  // ---------- calls that fail, and lengths ----------

  /** Which pairs of files are not compared, and what they get instead. */
  lemma UncomparedIff(user: FileView, right: FileView)
    ensures Verdict(user, right) == OLE <==> user.statOk && |user.bytes| > 1000
    ensures Verdict(user, right) == UKE <==>
      || !user.statOk
      || (|user.bytes| <= 1000 &&
          (!right.statOk || user.bytes == [] || !user.mapOk || ToInt32(|right.bytes|) <= 0 || !right.mapOk))
  {
  }

  // ---------- acceptance ----------

  /** The same bytes, or the same bytes up to and including some NUL. */
  ghost predicate EqualThroughNul(s: seq<byte>, t: seq<byte>) {
    s == t || exists k :: 0 <= k < |s| && k < |t| && s[k] == 0 && s[..k + 1] == t[..k + 1]
  }

  lemma {:induction false} StringIff(s: seq<byte>, t: seq<byte>)
    requires |s| == |t|
    ensures UpToNul(s) == UpToNul(t) <==> EqualThroughNul(s, t)
  {
    if s != [] {
      StringStep(s, t);
      EqualStep(s, t);
      if s[0] == t[0] && s[0] != 0 {
        StringIff(s[1..], t[1..]);
      }
    }
  }

  lemma StringStep(s: seq<byte>, t: seq<byte>)
    requires |s| == |t| > 0
    ensures UpToNul(s) == UpToNul(t) <==> s[0] == t[0] && (s[0] == 0 || UpToNul(s[1..]) == UpToNul(t[1..]))
  {
    ConsEqual(s[0], UpToNul(s[1..]), t[0], UpToNul(t[1..]));
  }

  lemma FirstByte(s: seq<byte>, t: seq<byte>)
    requires |s| == |t| > 0 && EqualThroughNul(s, t)
    ensures s[0] == t[0]
  {
    if s != t {
      var k :| 0 <= k < |s| && s[..k + 1] == t[..k + 1];
      assert s[0] == s[..k + 1][0] && t[0] == t[..k + 1][0];
    }
  }

  lemma EqualStep(s: seq<byte>, t: seq<byte>)
    requires |s| == |t| > 0
    ensures EqualThroughNul(s, t) <==> s[0] == t[0] && (s[0] == 0 || EqualThroughNul(s[1..], t[1..]))
  {
    assert s == [s[0]] + s[1..] && t == [t[0]] + t[1..];
    if EqualThroughNul(s, t) {
      FirstByte(s, t);
    }
    if s[0] == t[0] {
      if s[0] == 0 {
        assert s[..0 + 1] == [s[0]] && t[..0 + 1] == [t[0]];
      } else {
        if s != t && EqualThroughNul(s, t) {
          var k :| 0 <= k < |s| && s[k] == 0 && s[..k + 1] == t[..k + 1];
          assert s[1..][k - 1] == 0 && s[1..][..k] == s[..k + 1][1..] && t[1..][..k] == t[..k + 1][1..];
        }
        if s != t && EqualThroughNul(s[1..], t[1..]) {
          var k :| 0 <= k < |s| - 1 && s[1..][k] == 0 && s[1..][..k + 1] == t[1..][..k + 1];
          assert s[..k + 2] == [s[0]] + s[1..][..k + 1] && t[..k + 2] == [t[0]] + t[1..][..k + 1];
          assert s[k + 1] == 0;
        }
      }
    }
  }

  // ---------- white space ----------

  /** Tab, newline, carriage return or space. */
  predicate White(c: byte) {
    c == 9 || c == 10 || c == 13 || c == 32
  }

  /** The positions, in order, of all bytes that are not white. */
  ghost predicate Letters(s: seq<byte>, at: seq<nat>) {
    && (forall k | 0 <= k < |at| :: at[k] < |s| && !White(s[at[k]]))
    && (forall j, k | 0 <= j < k < |at| :: at[j] < at[k])
    && (forall i: nat | i < |s| :: White(s[i]) || i in at)
  }

  lemma WhiteStep(s: seq<byte>, at: seq<nat>)
    requires s != [] && Letters(s, at) && White(s[|s| - 1])
    ensures Letters(s[..|s| - 1], at)
  {
    var n := |s| - 1;
    forall k | 0 <= k < |at| ensures at[k] < n && !White(s[..n][at[k]]) {
      assert !White(s[at[k]]);
    }
  }

  lemma Increasing(at: seq<nat>, j: nat)
    requires j < |at| && forall i, k | 0 <= i < k < |at| :: at[i] < at[k]
    ensures at[j] <= at[|at| - 1]
  {
    if j < |at| - 1 {
      assert at[j] < at[|at| - 1];
    }
  }

  /** A last byte that is not white is the last position. */
  lemma LetterStep(s: seq<byte>, at: seq<nat>)
    requires s != [] && Letters(s, at) && !White(s[|s| - 1])
    ensures at != [] && at[|at| - 1] == |s| - 1 && Letters(s[..|s| - 1], at[..|at| - 1])
  {
    var n, m := |s| - 1, |at| - 1;
    var j :| 0 <= j < |at| && at[j] == n;
    Increasing(at, j);
    var front := at[..m];
    assert at == front + [n];
    forall k | 0 <= k < m ensures front[k] < n && !White(s[..n][front[k]]) {
      assert at[k] < at[m];
    }
    forall i: nat | i < n ensures White(s[..n][i]) || i in front {
      assert White(s[i]) || i in at;
    }
  }

  function BytesAt(s: seq<byte>, at: seq<nat>): (r: seq<byte>)
    requires forall k | 0 <= k < |at| :: at[k] < |s|
    ensures |r| == |at| && forall k | 0 <= k < |at| :: r[k] == s[at[k]]
  {
    seq(|at|, k requires 0 <= k < |at| => s[at[k]])
  }

  lemma BytesAtStep(s: seq<byte>, at: seq<nat>)
    requires s != [] && Letters(s, at)
    ensures var n := |s| - 1;
      if White(s[n]) then Letters(s[..n], at) && BytesAt(s, at) == BytesAt(s[..n], at)
      else at != [] && Letters(s[..n], at[..|at| - 1]) && BytesAt(s, at) == BytesAt(s[..n], at[..|at| - 1]) + [s[n]]
  {
    if White(s[|s| - 1]) {
      WhiteStep(s, at);
    } else {
      LetterStep(s, at);
    }
  }

  /** What is compared are the bytes at these positions. */
  lemma {:induction false} StripLetters(s: seq<byte>, at: seq<nat>)
    requires Letters(s, at)
    ensures Strip(s) == BytesAt(s, at)
  {
    assert at != [] ==> at[0] < |s|;
    if s != [] {
      var n := |s| - 1;
      assert s == s[..n] + [s[n]];
      StripLast(s[..n], s[n]);
      BytesAtStep(s, at);
      StripLetters(s[..n], if White(s[n]) then at else at[..|at| - 1]);
    }
  }

  lemma {:induction false} LettersExist(s: seq<byte>) returns (at: seq<nat>)
    ensures Letters(s, at)
  {
    if s == [] {
      at := [];
    } else {
      var n := |s| - 1;
      at := LettersExist(s[..n]);
      if !White(s[n]) {
        at := at + [n];
      }
    }
  }

  /** Read in order and skipping tabs, newlines, carriage returns and spaces, the two are the same. */
  ghost predicate SameLetters(s: seq<byte>, t: seq<byte>) {
    exists f, g :: Letters(s, f) && Letters(t, g) && |f| == |g| && forall k | 0 <= k < |f| :: s[f[k]] == t[g[k]]
  }

  lemma SameLettersIff(s: seq<byte>, t: seq<byte>)
    ensures Strip(s) == Strip(t) <==> SameLetters(s, t)
  {
    if SameLetters(s, t) {
      var f, g :| Letters(s, f) && Letters(t, g) && |f| == |g| && forall k | 0 <= k < |f| :: s[f[k]] == t[g[k]];
      StripLetters(s, f);
      StripLetters(t, g);
    } else if Strip(s) == Strip(t) {
      var f := LettersExist(s);
      var g := LettersExist(t);
      StripLetters(s, f);
      StripLetters(t, g);
    }
  }

  // ---------- the verdict ----------

  /** The verdict on every comparable pair: equal through a NUL, equal but for white space, or wrong. */
  lemma ComparedIff(user: FileView, right: FileView)
    requires Comparable(user) && Expected(right)
    ensures Verdict(user, right) ==
      if |user.bytes| == |right.bytes| && EqualThroughNul(user.bytes, right.bytes) then AC
      else if SameLetters(user.bytes, right.bytes) then PE
      else WA
  {
    ClosedForm(user, right);
    if |user.bytes| == |right.bytes| {
      StringIff(user.bytes, right.bytes);
    }
    SameLettersIff(user.bytes, right.bytes);
  }

  /** One byte more is a presentation error exactly for white space, and a wrong answer otherwise. */
  lemma InsertedByteIff(user: FileView, edited: FileView, at: nat, c: byte)
    requires Comparable(user) && Comparable(edited) && at <= |user.bytes|
    requires edited.bytes == user.bytes[..at] + [c] + user.bytes[at..]
    ensures Verdict(edited, user) == if c == 9 || c == 10 || c == 13 || c == 32 then PE else WA
    ensures Verdict(user, edited) == Verdict(edited, user)
  {
    var head, tail := user.bytes[..at], user.bytes[at..];
    ClosedForm(edited, user);
    ClosedForm(user, edited);
    assert user.bytes == head + tail;
    StripConcat(head, tail);
    StripLast(head, c);
    StripConcat(head + [c], tail);
    if !IsSpace(c) {
      assert |Strip(edited.bytes)| == |Strip(user.bytes)| + 1;
    }
  }
}
