/** `Array.from(new Set(xs))` and the default `Array.prototype.sort` on
    arrays of optional strings: distinct values in first-seen order, and
    ascending string order with `undefined` moved to the end. */
module JsSort {
  import opened Js

  /** The default comparison of two strings: lexicographic by character. */
  predicate StrLess(a: string, b: string)
    decreases |a|
  {
    if |a| == 0 then |b| > 0
    else if |b| == 0 then false
    else if a[0] == b[0] then StrLess(a[1..], b[1..])
    else a[0] < b[0]
  }

  /** The default sort order on optional strings: strings compare as
      strings, and `undefined` comes after every string. */
  predicate Less(a: Option<string>, b: Option<string>) {
    match (a, b)
    case (Some(x), Some(y)) => StrLess(x, y)
    case (Some(_), None) => true
    case (None, _) => false
  }

  lemma {:induction false} StrLessIrreflexive(a: string)
    ensures !StrLess(a, a)
    decreases |a|
  {
    if |a| > 0 {
      StrLessIrreflexive(a[1..]);
    }
  }

  lemma {:induction false} StrLessTransitive(a: string, b: string, c: string)
    requires StrLess(a, b) && StrLess(b, c)
    ensures StrLess(a, c)
    decreases |a|
  {
    if |a| > 0 && |b| > 0 && |c| > 0 && a[0] == b[0] && b[0] == c[0] {
      StrLessTransitive(a[1..], b[1..], c[1..]);
    }
  }

  lemma {:induction false} StrLessTotal(a: string, b: string)
    requires a != b
    ensures StrLess(a, b) || StrLess(b, a)
    decreases |a|
  {
    if |a| > 0 && |b| > 0 && a[0] == b[0] {
      assert a == [a[0]] + a[1..] && b == [b[0]] + b[1..];
      StrLessTotal(a[1..], b[1..]);
    }
  }

  /** `Less` is a strict total order. */
  lemma LessOrder(a: Option<string>, b: Option<string>, c: Option<string>)
    ensures !Less(a, a)
    ensures Less(a, b) && Less(b, c) ==> Less(a, c)
    ensures a != b ==> Less(a, b) || Less(b, a)
  {
    if a.Some? { StrLessIrreflexive(a.value); }
    if Less(a, b) && Less(b, c) && c.Some? { StrLessTransitive(a.value, b.value, c.value); }
    if a != b && a.Some? && b.Some? { StrLessTotal(a.value, b.value); }
  }

  /** Strictly ascending, hence without repeats. */
  predicate Ascending(s: seq<Option<string>>) {
    forall i, j :: 0 <= i < j < |s| ==> Less(s[i], s[j])
  }

  /** `Array.from(new Set(s))`: the first occurrence of each value, in order. */
  function Dedup(s: seq<Option<string>>): (d: seq<Option<string>>)
    ensures Distinct(d)
    ensures forall x :: x in d <==> x in s
  {
    if |s| == 0 then []
    else
      var d := Dedup(s[..|s| - 1]);
      assert forall x :: x in s <==> x in s[..|s| - 1] || x == s[|s| - 1];
      if s[|s| - 1] in d then d else d + [s[|s| - 1]]
  }

  /** One insertion step of the sort. */
  function Insert(x: Option<string>, s: seq<Option<string>>): seq<Option<string>>
  {
    if |s| == 0 then [x]
    else if !Less(s[0], x) then [x] + s
    else [s[0]] + Insert(x, s[1..])
  }

  /** `s.sort()` on values without repeats, as an insertion sort (the
      result of a sort does not depend on the algorithm when there are no
      ties). */
  function Sort(s: seq<Option<string>>): seq<Option<string>>
  {
    if |s| == 0 then [] else Insert(s[0], Sort(s[1..]))
  }

  lemma {:induction false} InsertSpec(x: Option<string>, s: seq<Option<string>>)
    requires Ascending(s) && x !in s
    ensures Ascending(Insert(x, s))
    ensures forall y :: y in Insert(x, s) <==> y == x || y in s
  {
    if |s| == 0 {
    } else if !Less(s[0], x) {
      LessOrder(s[0], x, s[0]);
      forall j | 0 < j < |s| ensures Less(x, s[j]) {
        LessOrder(x, s[0], s[j]);
      }
      var r := [x] + s;
      forall i, j | 0 <= i < j < |r| ensures Less(r[i], r[j]) {
        if i > 0 { assert r[i] == s[i - 1] && r[j] == s[j - 1]; }
        else { assert r[j] == s[j - 1]; }
      }
    } else {
      var t := s[1..];
      assert forall i, j :: 0 <= i < j < |t| ==> t[i] == s[i + 1] && t[j] == s[j + 1];
      assert x !in t;
      InsertSpec(x, t);
      var u := Insert(x, t);
      var r := [s[0]] + u;
      forall j | 0 <= j < |u| ensures Less(s[0], u[j]) {
        assert u[j] in u;
        if u[j] != x {
          var k :| 0 <= k < |t| && t[k] == u[j];
          assert t[k] == s[k + 1];
        }
      }
      forall i, j | 0 <= i < j < |r| ensures Less(r[i], r[j]) {
        if i > 0 { assert r[i] == u[i - 1] && r[j] == u[j - 1]; }
        else { assert r[j] == u[j - 1]; }
      }
      assert forall y :: y in s <==> y == s[0] || y in t;
    }
  }

  /** Sorting values without repeats gives the same values, ascending. */
  lemma {:induction false} SortSpec(s: seq<Option<string>>)
    requires Distinct(s)
    ensures Ascending(Sort(s))
    ensures forall y :: y in Sort(s) <==> y in s
  {
    if |s| > 0 {
      var t := s[1..];
      assert forall i, j :: 0 <= i < j < |t| ==> t[i] == s[i + 1] && t[j] == s[j + 1];
      SortSpec(t);
      forall k | 0 <= k < |t| ensures t[k] != s[0] {
        assert t[k] == s[k + 1];
      }
      InsertSpec(s[0], Sort(t));
      assert forall y :: y in s <==> y == s[0] || y in t;
    }
  }

  /** Two ascending sequences with the same values are the same sequence. */
  lemma {:induction false} AscendingUnique(a: seq<Option<string>>, b: seq<Option<string>>)
    requires Ascending(a) && Ascending(b)
    requires forall y :: y in a <==> y in b
    ensures a == b
    decreases |a|
  {
    if |b| > 0 {
      assert b[0] in b;
    }
    if |a| == 0 {
    } else {
      assert a[0] in a;
      assert b[0] in b;
      var k :| 0 <= k < |b| && b[k] == a[0];
      var m :| 0 <= m < |a| && a[m] == b[0];
      if k > 0 {
        if m > 0 {
          LessOrder(a[0], b[0], a[0]);
        } else {
          LessOrder(b[0], b[0], b[0]);
        }
        assert false;
      }
      var ta, tb := a[1..], b[1..];
      forall y | y in ta ensures y in tb {
        var i :| 0 <= i < |ta| && ta[i] == y;
        assert a[i + 1] == y && Less(a[0], y);
        LessOrder(a[0], a[0], a[0]);
        assert y in b;
        var j :| 0 <= j < |b| && b[j] == y;
        assert j != 0;
        assert tb[j - 1] == y;
      }
      forall y | y in tb ensures y in ta {
        var i :| 0 <= i < |tb| && tb[i] == y;
        assert b[i + 1] == y && Less(b[0], y);
        LessOrder(b[0], b[0], b[0]);
        assert y in a;
        var j :| 0 <= j < |a| && a[j] == y;
        assert j != 0;
        assert ta[j - 1] == y;
      }
      AscendingUnique(ta, tb);
      assert a == [a[0]] + ta && b == [b[0]] + tb;
    }
  }

  /** `Array.from(new Set(s)).sort()` depends only on which values occur in
      `s`, not on their order or repetition. */
  lemma SortedSetDependsOnValues(s: seq<Option<string>>, t: seq<Option<string>>)
    requires forall y :: y in s <==> y in t
    ensures Sort(Dedup(s)) == Sort(Dedup(t))
  {
    SortSpec(Dedup(s));
    SortSpec(Dedup(t));
    AscendingUnique(Sort(Dedup(s)), Sort(Dedup(t)));
  }
}
