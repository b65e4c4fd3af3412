/**
 * The string tests `validateForm` makes: JavaScript's whitespace set (used
 * by both `String.prototype.trim` and the regular-expression class `\s`),
 * `trim()`, and the email pattern `^[^\s@]+@[^\s@]+\.[^\s@]+$` written out
 * by hand.
 */
module TextPatterns {

  /** ECMAScript WhiteSpace and LineTerminator code points. */
  predicate IsSpace(c: char)
  {
    c == '\t' || c == '\n' || c == '\U{000B}' || c == '\U{000C}' || c == '\r' || c == ' ' ||
    c == '\U{00A0}' || c == '\U{1680}' || ('\U{2000}' <= c <= '\U{200A}') ||
    c == '\U{2028}' || c == '\U{2029}' || c == '\U{202F}' || c == '\U{205F}' ||
    c == '\U{3000}' || c == '\U{FEFF}'
  }

  /** The class `[^\s@]`. */
  predicate IsLocalChar(c: char)
  {
    !IsSpace(c) && c != '@'
  }

  /** `[^\s@]+` matches the whole of `s`. */
  predicate IsRun(s: string)
  {
    |s| > 0 && forall k :: 0 <= k < |s| ==> IsLocalChar(s[k])
  }

  /** Drops leading whitespace. */
  function TrimStart(s: string): string
  {
    if s != [] && IsSpace(s[0]) then TrimStart(s[1..]) else s
  }

  /** Drops trailing whitespace. */
  function TrimEnd(s: string): string
  {
    if s != [] && IsSpace(s[|s| - 1]) then TrimEnd(s[..|s| - 1]) else s
  }

  /** `TrimStart` keeps a suffix, removes only whitespace, and leaves none in front. */
  lemma {:induction false} TrimStartSpec(s: string)
    ensures var r := TrimStart(s);
      |r| <= |s| && r == s[|s| - |r|..] &&
      (forall k :: 0 <= k < |s| - |r| ==> IsSpace(s[k])) &&
      (r != [] ==> !IsSpace(r[0]))
  {
    if s != [] && IsSpace(s[0]) {
      var t := s[1..];
      TrimStartSpec(t);
      var r := TrimStart(t);
      assert TrimStart(s) == r;
      assert t[|t| - |r|..] == s[|s| - |r|..];
      forall k | 0 <= k < |s| - |r| ensures IsSpace(s[k]) {
        if k > 0 { assert s[k] == t[k - 1]; }
      }
    }
  }

  /** `TrimEnd` keeps a prefix, removes only whitespace, and leaves none at the back. */
  lemma {:induction false} TrimEndSpec(s: string)
    ensures var r := TrimEnd(s);
      |r| <= |s| && r == s[..|r|] &&
      (forall k :: |r| <= k < |s| ==> IsSpace(s[k])) &&
      (r != [] ==> !IsSpace(r[|r| - 1]))
  {
    if s != [] && IsSpace(s[|s| - 1]) {
      var t := s[..|s| - 1];
      TrimEndSpec(t);
      var r := TrimEnd(t);
      assert TrimEnd(s) == r;
      assert t[..|r|] == s[..|r|];
      forall k | |r| <= k < |s| ensures IsSpace(s[k]) {
        if k < |s| - 1 { assert s[k] == t[k]; }
      }
    }
  }

  /** `s.trim()`: no longer than `s`, and neither starting nor ending with whitespace. */
  function Trim(s: string): (r: string)
    ensures |r| <= |s|
    ensures r != [] ==> !IsSpace(r[0]) && !IsSpace(r[|r| - 1])
  {
    TrimStartSpec(s);
    TrimEndSpec(TrimStart(s));
    TrimEnd(TrimStart(s))
  }

  /** `s.trim()` is `s` with its leading and trailing whitespace cut off: a
      slice `s[a..b]` with only whitespace before `a` and after `b`. */
  lemma TrimIsMiddle(s: string)
    ensures exists a, b ::
              0 <= a <= b <= |s| && Trim(s) == s[a..b] &&
              (forall k :: 0 <= k < a ==> IsSpace(s[k])) &&
              (forall k :: b <= k < |s| ==> IsSpace(s[k]))
  {
    var t := TrimStart(s);
    TrimStartSpec(s);
    TrimEndSpec(t);
    var a := |s| - |t|;
    var b := a + |TrimEnd(t)|;
    assert Trim(s) == s[a..b];
    forall k | b <= k < |s| ensures IsSpace(s[k]) {
      assert s[k] == t[k - a];
    }
  }

  /** Trimming leaves nothing exactly when every character is whitespace. */
  lemma TrimEmptyIffAllSpace(s: string)
    ensures Trim(s) == [] <==> forall k :: 0 <= k < |s| ==> IsSpace(s[k])
  {
    var t := TrimStart(s);
    TrimStartSpec(s);
    TrimEndSpec(t);
    if Trim(s) != [] {
      assert Trim(s)[0] == t[0] == s[|s| - |t|];
    }
  }

  /** `!s.trim()`: the trimmed string is empty, and so falsy; that is, every
      character is whitespace. */
  predicate IsBlank(s: string)
    ensures IsBlank(s) <==> forall k :: 0 <= k < |s| ==> IsSpace(s[k])
  {
    TrimEmptyIffAllSpace(s);
    Trim(s) == []
  }

  /**
   * The regular expression's meaning: `s` splits as `a @ b . c` with each
   * of `a`, `b`, `c` a non-empty run of `[^\s@]`, where `i` is the index of
   * the `@` and `j` that of the `.`.
   */
  ghost predicate MatchesEmailPattern(s: string)
  {
    exists i, j :: 0 <= i < j < |s| && SplitsAt(s, i, j)
  }

  ghost predicate SplitsAt(s: string, i: nat, j: nat)
    requires i < j < |s|
  {
    IsRun(s[..i]) && s[i] == '@' && IsRun(s[i + 1..j]) && s[j] == '.' && IsRun(s[j + 1..])
  }

  /** Index of the first `c` in `s`, or `|s|` when there is none. */
  function IndexOf(s: string, c: char): (i: nat)
    ensures i <= |s|
    ensures i < |s| ==> s[i] == c
    ensures forall k :: 0 <= k < i ==> s[k] != c
  {
    if s == [] then 0
    else if s[0] == c then 0
    else 1 + IndexOf(s[1..], c)
  }

  /** A `.` with at least one character before and after it. */
  predicate HasInnerDot(s: string)
  {
    exists j :: 0 < j < |s| - 1 && s[j] == '.'
  }

  /** `emailRegex.test(s)`, decided without a regular-expression engine:
      split at the first `@`, check both sides are runs of `[^\s@]`, and
      look for an inner dot after it. */
  predicate IsEmailAddress(s: string)
    ensures IsEmailAddress(s) ==> |s| >= 5
  {
    var at := IndexOf(s, '@');
    0 < at < |s| && IsRun(s[..at]) && IsRun(s[at + 1..]) && HasInnerDot(s[at + 1..])
  }

  lemma RunSplit(s: string, j: nat)
    requires 0 < j < |s| - 1 && IsRun(s) && s[j] == '.'
    ensures IsRun(s[..j]) && IsRun(s[j + 1..])
  {
  }

  lemma RunJoin(s: string, j: nat)
    requires j < |s| && IsRun(s[..j]) && s[j] == '.' && IsRun(s[j + 1..])
    ensures IsRun(s)
  {
    forall k | 0 <= k < |s| ensures IsLocalChar(s[k]) {
      if k < j { assert s[k] == s[..j][k]; }
      else if k > j { assert s[k] == s[j + 1..][k - j - 1]; }
    }
  }

  lemma PatternFromAddress(s: string)
    requires IsEmailAddress(s)
    ensures MatchesEmailPattern(s)
  {
    var at := IndexOf(s, '@');
    var d := s[at + 1..];
    var j :| 0 < j < |d| - 1 && d[j] == '.';
    RunSplit(d, j);
    assert s[at + 1..at + 1 + j] == d[..j];
    assert s[at + 1 + j + 1..] == d[j + 1..];
    assert SplitsAt(s, at, at + 1 + j);
  }

  lemma AddressFromPattern(s: string, i: nat, j: nat)
    requires i < j < |s| && SplitsAt(s, i, j)
    ensures IsEmailAddress(s)
  {
    assert forall k :: 0 <= k < i ==> s[k] == s[..i][k];
    assert IndexOf(s, '@') == i;
    var d := s[i + 1..];
    var jj := j - i - 1;
    assert d[..jj] == s[i + 1..j];
    assert d[jj + 1..] == s[j + 1..];
    RunJoin(d, jj);
    assert d[jj] == '.';
  }

  /** The hand-written test accepts exactly the strings the pattern matches. */
  lemma EmailAddressIffPattern(s: string)
    ensures IsEmailAddress(s) <==> MatchesEmailPattern(s)
  {
    if IsEmailAddress(s) {
      PatternFromAddress(s);
    }
    if MatchesEmailPattern(s) {
      var i, j :| 0 <= i < j < |s| && SplitsAt(s, i, j);
      AddressFromPattern(s, i, j);
    }
  }

  lemma NoAtInRun(s: string)
    requires IsRun(s)
    ensures multiset(s)['@'] == 0
  {
    assert '@' !in s by {
      forall k | 0 <= k < |s| ensures s[k] != '@' { assert IsLocalChar(s[k]); }
    }
  }

  lemma OneAt(s: string, at: nat)
    requires at < |s| && s[at] == '@' && IsRun(s[..at]) && IsRun(s[at + 1..])
    ensures multiset(s)['@'] == 1
  {
    var a, d := s[..at], s[at + 1..];
    assert s == a + [s[at]] + d;
    NoAtInRun(a);
    NoAtInRun(d);
  }

  lemma NoSpaceAround(s: string, at: nat)
    requires at < |s| && s[at] == '@' && IsRun(s[..at]) && IsRun(s[at + 1..])
    ensures forall k :: 0 <= k < |s| ==> !IsSpace(s[k])
  {
    forall k | 0 <= k < |s| ensures !IsSpace(s[k]) {
      if k < at { assert s[k] == s[..at][k]; }
      else if k > at { assert s[k] == s[at + 1..][k - at - 1]; }
    }
  }

  /** An accepted address has exactly one `@`, no whitespace, and after the
      `@` a `.` with a character on each side. */
  lemma EmailAddressShape(s: string)
    requires IsEmailAddress(s)
    ensures multiset(s)['@'] == 1
    ensures forall k :: 0 <= k < |s| ==> !IsSpace(s[k])
    ensures exists j :: IndexOf(s, '@') + 1 < j < |s| - 1 && s[j] == '.'
  {
    var at := IndexOf(s, '@');
    OneAt(s, at);
    NoSpaceAround(s, at);
    var d := s[at + 1..];
    var j :| 0 < j < |d| - 1 && d[j] == '.';
    assert s[at + 1 + j] == '.';
  }

  /** A value with whitespace at either end fails the pattern, although
      `trim()` can leave it non-blank. */
  lemma PaddedValueRejected(s: string)
    requires |s| > 0 && (IsSpace(s[0]) || IsSpace(s[|s| - 1]))
    ensures !IsEmailAddress(s)
  {
    if IsEmailAddress(s) {
      var at := IndexOf(s, '@');
      NoSpaceAround(s, at);
    }
  }

  lemma TrimPaddedExample()
    ensures Trim(" a@b.co") == "a@b.co"
  {
    var s, t := " a@b.co", "a@b.co";
    assert s[1..] == t;
    assert TrimStart(t) == t by { assert !IsSpace(t[0]); }
    assert TrimEnd(t) == t by { assert !IsSpace(t[|t| - 1]); }
  }

  lemma PlainAddressExample()
    ensures IsEmailAddress("a@b.co")
  {
    var t := "a@b.co";
    assert IndexOf(t, '@') == 1 by {
      assert t[0] != '@';
      assert t[1..] == "@b.co";
      assert IndexOf("@b.co", '@') == 0;
    }
    assert t[2..] == "b.co";
    assert t[..1] == "a";
    assert HasInnerDot(t[2..]) by { assert t[2..][1] == '.'; }
  }

  /** A concrete padded address: not blank, rejected as typed, accepted once trimmed. */
  lemma PaddedAddressExample()
    ensures !IsBlank(" a@b.co") && !IsEmailAddress(" a@b.co") && IsEmailAddress(Trim(" a@b.co"))
  {
    TrimPaddedExample();
    PlainAddressExample();
    PaddedValueRejected(" a@b.co");
  }
}
