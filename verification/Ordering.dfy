/**
 The order of Python's `sorted` on strings: by code point, a proper prefix first.  A strictly
 sorted list is determined by its elements.
 */
module Ordering {
  predicate Less(a: string, b: string) {
    b != "" && (a == "" || a[0] < b[0] || (a[0] == b[0] && Less(a[1..], b[1..])))
  }

  /** The strings agree before `k`, where `a` ends or has the smaller code point. */
  predicate LessAt(a: string, b: string, k: nat) {
    k <= |a| && k < |b| && a[..k] == b[..k] && (k == |a| || a[k] < b[k])
  }

  /** `a` comes first: at the first difference its code point is smaller, or it is a proper prefix. */
  lemma {:induction false} LessMeans(a: string, b: string)
    ensures Less(a, b) <==> exists k: nat :: LessAt(a, b, k)
  {
    if b != "" && (a == "" || a[0] < b[0]) {
      assert LessAt(a, b, 0);
    } else if b != "" && a[0] == b[0] {
      LessMeans(a[1..], b[1..]);
      if k: nat :| LessAt(a[1..], b[1..], k) {
        assert a[..k + 1] == [a[0]] + a[1..][..k] && b[..k + 1] == [b[0]] + b[1..][..k];
        assert LessAt(a, b, k + 1);
      }
      if k: nat :| LessAt(a, b, k) {
        assert k > 0;
        assert a[1..][..k - 1] == a[..k][1..] && b[1..][..k - 1] == b[..k][1..];
        assert LessAt(a[1..], b[1..], k - 1);
      }
    }
  }

  lemma {:induction false} LessTotal(a: string, b: string)
    ensures a == b || Less(a, b) || Less(b, a)
    ensures !(Less(a, b) && Less(b, a)) && (a == b ==> !Less(a, b))
  {
    if a != "" && b != "" {
      LessTotal(a[1..], b[1..]);
      assert a == [a[0]] + a[1..] && b == [b[0]] + b[1..];
    }
  }

  lemma {:induction false} LessTransitive(a: string, b: string, c: string)
    requires Less(a, b) && Less(b, c)
    ensures Less(a, c)
  {
    if a != "" && a[0] == b[0] == c[0] {
      LessTransitive(a[1..], b[1..], c[1..]);
    }
  }

  predicate Sorted(s: seq<string>) {
    forall i, j :: 0 <= i < j < |s| ==> Less(s[i], s[j])
  }

  function Insert(x: string, s: seq<string>): seq<string> {
    if s == [] then [x]
    else if x == s[0] then s
    else if Less(x, s[0]) then [x] + s
    else [s[0]] + Insert(x, s[1..])
  }

  /** `sorted(set(xs))`. */
  function SortUnique(xs: seq<string>): seq<string> {
    if xs == [] then [] else Insert(xs[|xs| - 1], SortUnique(xs[..|xs| - 1]))
  }

  lemma {:induction false} InsertSorted(x: string, s: seq<string>)
    requires Sorted(s)
    ensures Sorted(Insert(x, s))
    ensures forall y :: y in Insert(x, s) <==> y == x || y in s
  {
    if s != [] {
      LessTotal(x, s[0]);
      if Less(x, s[0]) {
        forall j | 0 < j < |s| ensures Less(x, s[j]) { LessTransitive(x, s[0], s[j]); }
      } else if x != s[0] {
        InsertSorted(x, s[1..]);
        var t := Insert(x, s[1..]);
        assert s == [s[0]] + s[1..];
        forall j | 0 <= j < |t| ensures Less(s[0], t[j]) {
          assert t[j] in t;
          if t[j] != x { var i :| 0 <= i < |s[1..]| && s[1..][i] == t[j]; }
        }
      }
    }
  }

  lemma {:induction false} SortUniqueSorted(xs: seq<string>)
    ensures Sorted(SortUnique(xs))
    ensures forall y :: y in SortUnique(xs) <==> y in xs
  {
    if xs != [] {
      SortUniqueSorted(xs[..|xs| - 1]);
      InsertSorted(xs[|xs| - 1], SortUnique(xs[..|xs| - 1]));
      assert xs == xs[..|xs| - 1] + [xs[|xs| - 1]];
    }
  }

  lemma SameElementsEmpty(s: seq<string>, t: seq<string>)
    requires forall y :: y in s <==> y in t
    ensures s == [] <==> t == []
  {
    if t != [] { assert t[0] in t && t[0] in s; }
    if s != [] { assert s[0] in s && s[0] in t; }
  }

  lemma {:induction false} SortedDetermined(s: seq<string>, t: seq<string>)
    requires Sorted(s) && Sorted(t)
    requires forall y :: y in s <==> y in t
    ensures s == t
  {
    SameElementsEmpty(s, t);
    if s != [] {
      assert s[0] in s && t[0] in t;
      var i :| 0 <= i < |t| && t[i] == s[0];
      var j :| 0 <= j < |s| && s[j] == t[0];
      LessTotal(s[0], t[0]);
      assert s[0] == t[0];
      forall y ensures y in s[1..] <==> y in t[1..] {
        SortedTail(s, y);
        SortedTail(t, y);
      }
      SortedDetermined(s[1..], t[1..]);
      assert s == [s[0]] + s[1..] && t == [t[0]] + t[1..];
    }
  }

  lemma SortedTail(s: seq<string>, y: string)
    requires Sorted(s) && s != []
    ensures y in s[1..] <==> y in s && y != s[0]
  {
    if y in s[1..] {
      var i :| 0 <= i < |s[1..]| && s[1..][i] == y;
      LessTotal(s[0], s[i + 1]);
    }
    assert s == [s[0]] + s[1..];
  }

  /** Equal elements, equal sorted list. */
  lemma SortUniqueCongruent(xs: seq<string>, ys: seq<string>)
    requires forall y :: y in xs <==> y in ys
    ensures SortUnique(xs) == SortUnique(ys)
  {
    SortUniqueSorted(xs);
    SortUniqueSorted(ys);
    SortedDetermined(SortUnique(xs), SortUnique(ys));
  }

  /** Positions in order, each once. */
  ghost predicate Rising(os: seq<nat>) {
    forall a, b :: 0 <= a < b < |os| ==> os[a] < os[b]
  }
}
