/** JavaScript value semantics the screens rely on: `undefined`/`null` as an
    option, string truthiness in `a || b`, the `\s` white-space class and
    `String.prototype.trim`. */
module Js {

  /** `None` stands for `undefined` or `null`, `Some(v)` for a present value. */
  datatype Option<+T> = None | Some(value: T)

  /** The characters of the ECMAScript WhiteSpace and LineTerminator
      productions: exactly what the regex class `\s` matches and what
      `trim()` strips. */
  predicate IsSpace(c: char) {
    || c == '\t' || c == '\n' || c == '\U{0B}' || c == '\U{0C}' || c == '\r' || c == ' '
    || c == '\U{A0}' || c == '\U{1680}' || ('\U{2000}' <= c <= '\U{200A}')
    || c == '\U{2028}' || c == '\U{2029}' || c == '\U{202F}' || c == '\U{205F}'
    || c == '\U{3000}' || c == '\U{FEFF}'
  }

  predicate AllSpace(s: string) {
    forall i :: 0 <= i < |s| ==> IsSpace(s[i])
  }

  /** `s.trimStart()`: drops the longest all-white-space prefix. */
  function TrimStart(s: string): string {
    if |s| > 0 && IsSpace(s[0]) then TrimStart(s[1..]) else s
  }

  /** `s.trimEnd()`: drops the longest all-white-space suffix. */
  function TrimEnd(s: string): string {
    if |s| > 0 && IsSpace(s[|s| - 1]) then TrimEnd(s[..|s| - 1]) else s
  }

  /** `s.trim()`. */
  function Trim(s: string): string {
    TrimEnd(TrimStart(s))
  }

  /** `trimStart` keeps a suffix, removes only white space, and leaves no
      white space at the front. */
  lemma {:induction false} TrimStartSpec(s: string)
    ensures |TrimStart(s)| <= |s| && TrimStart(s) == s[|s| - |TrimStart(s)|..]
    ensures AllSpace(s[..|s| - |TrimStart(s)|])
    ensures TrimStart(s) == [] || !IsSpace(TrimStart(s)[0])
  {
    if |s| > 0 && IsSpace(s[0]) {
      TrimStartSpec(s[1..]);
      var t := TrimStart(s[1..]);
      assert s[..|s| - |t|] == [s[0]] + s[1..][..|s[1..]| - |t|];
    }
  }

  /** `trimEnd` keeps a prefix, removes only white space, and leaves no
      white space at the back. */
  lemma {:induction false} TrimEndSpec(s: string)
    ensures |TrimEnd(s)| <= |s| && TrimEnd(s) == s[..|TrimEnd(s)|]
    ensures AllSpace(s[|TrimEnd(s)|..])
    ensures TrimEnd(s) == [] || !IsSpace(TrimEnd(s)[|TrimEnd(s)| - 1])
  {
    if |s| > 0 && IsSpace(s[|s| - 1]) {
      TrimEndSpec(s[..|s| - 1]);
      var t := TrimEnd(s[..|s| - 1]);
      assert s[|t|..] == s[..|s| - 1][|t|..] + [s[|s| - 1]];
    }
  }

  /** `trim` yields the middle slice of `s` left once white space is
      stripped from both ends, and that slice starts and ends with a
      character that is not white space. */
  lemma TrimSpec(s: string)
    ensures exists a :: 0 <= a <= a + |Trim(s)| <= |s| && Trim(s) == s[a..a + |Trim(s)|]
                        && AllSpace(s[..a]) && AllSpace(s[a + |Trim(s)|..])
    ensures Trim(s) == [] || (!IsSpace(Trim(s)[0]) && !IsSpace(Trim(s)[|Trim(s)| - 1]))
  {
    TrimStartSpec(s);
    var t := TrimStart(s);
    TrimEndSpec(t);
    var r := TrimEnd(t);
    var a := |s| - |t|;
    assert r == s[a..a + |r|];
    assert s[a + |r|..] == t[|r|..];
  }

  /** The test `!value.trim()`: the trimmed string is the falsy `''`. */
  predicate Blank(s: string) {
    Trim(s) == ""
  }

  /** A string is blank exactly when every character in it is white space. */
  lemma {:induction false} BlankIffAllSpace(s: string)
    ensures Blank(s) <==> AllSpace(s)
  {
    TrimSpec(s);
    var r := Trim(s);
    var a :| 0 <= a <= a + |r| <= |s| && r == s[a..a + |r|]
              && AllSpace(s[..a]) && AllSpace(s[a + |r|..]);
    if r == [] {
      forall i | 0 <= i < |s| ensures IsSpace(s[i]) {
        if i < a { assert s[i] == s[..a][i]; }
        else { assert s[i] == s[a..][i - a]; }
      }
    }
  }

  /** JavaScript truthiness of an optional string: present and not `''`. */
  predicate Truthy(v: Option<string>) {
    v.Some? && v.value != ""
  }

  /** `v || fallback` where the fallback is a string literal. A non-empty
      fallback makes the result non-empty whatever `v` is. */
  function OrText(v: Option<string>, fallback: string): (r: string)
    ensures Truthy(v) ==> r == v.value
    ensures !Truthy(v) ==> r == fallback
    ensures r == "" <==> !Truthy(v) && fallback == ""
  {
    if Truthy(v) then v.value else fallback
  }

  /** `v || w` between two optional strings: JavaScript yields `w` itself,
      falsy or not, whenever `v` is falsy. */
  function OrOpt(v: Option<string>, w: Option<string>): (r: Option<string>)
    ensures Truthy(v) ==> r == v
    ensures !Truthy(v) ==> r == w
    ensures Truthy(r) <==> Truthy(v) || Truthy(w)
  {
    if Truthy(v) then v else w
  }

  /** How many UTF-16 code units `c` takes: two for a character outside
      the Basic Multilingual Plane, one otherwise. */
  function CodeUnits(c: char): nat {
    if c as int >= 0x1_0000 then 2 else 1
  }

  /** `s.length`: JavaScript counts UTF-16 code units, not characters. */
  function Length(s: string): nat {
    if |s| == 0 then 0 else Length(s[..|s| - 1]) + CodeUnits(s[|s| - 1])
  }

  /** `s.length` lies between the character count and twice it, equals the
      character count exactly when every character is in the Basic
      Multilingual Plane, and is zero only for `''`. */
  lemma {:induction false} LengthBounds(s: string)
    ensures |s| <= Length(s) <= 2 * |s|
    ensures Length(s) == 0 <==> s == ""
    ensures Length(s) == |s| <==> forall i :: 0 <= i < |s| ==> s[i] as int < 0x1_0000
  {
    if |s| > 0 {
      var init := s[..|s| - 1];
      LengthBounds(init);
      assert forall i :: 0 <= i < |init| ==> init[i] == s[i];
    }
  }

  /** The length of a concatenation is the sum of the lengths. */
  lemma {:induction false} LengthAppend(s: string, t: string)
    ensures Length(s + t) == Length(s) + Length(t)
    decreases |t|
  {
    if |t| > 0 {
      assert (s + t)[..|s + t| - 1] == s + t[..|t| - 1];
      LengthAppend(s, t[..|t| - 1]);
    } else {
      assert s + t == s;
    }
  }

  /** No value occurs twice. */
  predicate Distinct<T(==)>(s: seq<T>) {
    forall i, j :: 0 <= i < j < |s| ==> s[i] != s[j]
  }
}
