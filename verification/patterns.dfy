/** The regular expressions of the sign-up and sign-in screens, written as
    predicates over strings:
      email   ^[^\s@]+@[^\s@]+\.[^\s@]+$
      name    ^[a-zA-Z\s]*$
      number  ^[0-9]*$
    and the character-class tests `[a-zA-Z]`, `[0-9]`, `[^a-zA-Z0-9]` that the
    password-strength meter runs without anchors. */
module Patterns {
  import opened Js

  predicate IsAsciiLetter(c: char) {
    ('a' <= c <= 'z') || ('A' <= c <= 'Z')
  }

  predicate IsDigit(c: char) {
    '0' <= c <= '9'
  }

  /** One run of `[^\s@]*`: no white space and no `@`. */
  predicate Plain(s: string) {
    forall i :: 0 <= i < |s| ==> !IsSpace(s[i]) && s[i] != '@'
  }

  /** The email regex: the string splits as `a@b.c` with `a`, `b`, `c`
      non-empty runs of `[^\s@]`. The `.` may be any dot after the `@` that
      leaves a character on each side, as backtracking allows. */
  predicate MatchesEmail(s: string) {
    exists i, j | 0 < i < |s| && 0 < j < |s| && i + 1 < j && j + 1 < |s| ::
      && s[i] == '@' && s[j] == '.'
      && Plain(s[..i]) && Plain(s[i + 1..j]) && Plain(s[j + 1..])
  }

  /** The name regex: every character is an ASCII letter or white space
      (the empty string matches). */
  predicate MatchesName(s: string) {
    forall i :: 0 <= i < |s| ==> IsAsciiLetter(s[i]) || IsSpace(s[i])
  }

  /** The number regex: every character is a decimal digit. */
  predicate MatchesNumber(s: string) {
    forall i :: 0 <= i < |s| ==> IsDigit(s[i])
  }

  predicate HasLetter(s: string) {
    exists i :: 0 <= i < |s| && IsAsciiLetter(s[i])
  }

  predicate HasDigit(s: string) {
    exists i :: 0 <= i < |s| && IsDigit(s[i])
  }

  /** `[^a-zA-Z0-9]` finds a match: some character is neither letter nor digit. */
  predicate HasSymbol(s: string) {
    exists i :: 0 <= i < |s| && !IsAsciiLetter(s[i]) && !IsDigit(s[i])
  }

  /** The address shape described in words: no white space, exactly one
      `@` with something before it, and after the `@` a `.` with at least
      one character on each side. */
  ghost predicate EmailShape(s: string) {
    && (forall k :: 0 <= k < |s| ==> !IsSpace(s[k]))
    && multiset(s)['@'] == 1
    && exists i :: 0 < i < |s| && s[i] == '@' && exists j :: i + 1 < j < |s| - 1 && s[j] == '.'
  }

  lemma CountSplit(s: string, i: int)
    requires 0 <= i < |s|
    ensures multiset(s)['@'] == multiset(s[..i])['@'] + multiset([s[i]])['@'] + multiset(s[i + 1..])['@']
  {
    assert s == s[..i] + [s[i]] + s[i + 1..];
  }

  lemma PlainHasNoAt(s: string)
    requires Plain(s)
    ensures multiset(s)['@'] == 0
  {
  }

  lemma RegexToShape(s: string)
    requires MatchesEmail(s)
    ensures EmailShape(s)
  {
    var i, j :| 0 < i < |s| && 0 < j < |s| && i + 1 < j && j + 1 < |s|
      && s[i] == '@' && s[j] == '.'
      && Plain(s[..i]) && Plain(s[i + 1..j]) && Plain(s[j + 1..]);
    forall k | 0 <= k < |s| ensures !IsSpace(s[k]) {
      if k < i { assert s[k] == s[..i][k]; }
      else if i < k < j { assert s[k] == s[i + 1..j][k - i - 1]; }
      else if j < k { assert s[k] == s[j + 1..][k - j - 1]; }
    }
    assert s[i + 1..] == s[i + 1..j] + [s[j]] + s[j + 1..];
    PlainHasNoAt(s[..i]);
    PlainHasNoAt(s[i + 1..j]);
    PlainHasNoAt(s[j + 1..]);
    CountSplit(s, i);
  }

  lemma ShapeToRegex(s: string)
    requires EmailShape(s)
    ensures MatchesEmail(s)
  {
    var i :| 0 < i < |s| && s[i] == '@' && exists j :: i + 1 < j < |s| - 1 && s[j] == '.';
    var j :| i + 1 < j < |s| - 1 && s[j] == '.';
    CountSplit(s, i);
    var pre, post := s[..i], s[i + 1..];
    assert multiset(pre)['@'] == 0 && multiset(post)['@'] == 0;
    forall k | 0 <= k < |pre| ensures !IsSpace(pre[k]) && pre[k] != '@' {
      assert pre[k] == s[k];
      assert pre[k] in multiset(pre);
    }
    forall k | 0 <= k < |post| ensures !IsSpace(post[k]) && post[k] != '@' {
      assert post[k] == s[i + 1 + k];
      assert post[k] in multiset(post);
    }
    assert s[i + 1..j] == post[..j - i - 1];
    assert s[j + 1..] == post[j - i..];
    assert Plain(pre) && Plain(s[i + 1..j]) && Plain(s[j + 1..]);
  }

  /** The regex accepts exactly the strings of the worded shape. */
  lemma EmailRegexShape(s: string)
    ensures MatchesEmail(s) <==> EmailShape(s)
  {
    if MatchesEmail(s) { RegexToShape(s); }
    if EmailShape(s) { ShapeToRegex(s); }
  }

  /** Whatever the email regex accepts is not blank, since its three runs
      hold no white space. */
  lemma EmailNotBlank(s: string)
    requires MatchesEmail(s)
    ensures !Blank(s)
  {
    EmailRegexShape(s);
    BlankIffAllSpace(s);
    assert !IsSpace(s[0]);
  }
}
