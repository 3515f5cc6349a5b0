/** Text helpers the core relies on: `str.join`, `str.strip`, substring
    containment, and the ascending sort by file name (Python compares
    strings code point by code point). */
module Strings {

  /** `sep.join(parts)` */
  function Join(sep: string, parts: seq<string>): string
    decreases |parts|
  {
    if |parts| == 0 then ""
    else if |parts| == 1 then parts[0]
    else parts[0] + sep + Join(sep, parts[1..])
  }

  /** `s.startswith(p)` */
  predicate StartsWith(s: string, p: string)
  {
    |p| <= |s| && s[..|p|] == p
  }

  /** `s.endswith(p)` */
  predicate EndsWith(s: string, p: string)
  {
    |p| <= |s| && s[|s| - |p|..] == p
  }

  /** `t in s` for strings: `t` occurs in `s` at some offset. */
  ghost predicate Infix(t: string, s: string)
  {
    exists k :: 0 <= k <= |s| - |t| && OccursAt(t, s, k)
  }

  predicate OccursAt(t: string, s: string, k: nat)
  {
    k + |t| <= |s| && s[k..k + |t|] == t
  }

  lemma InfixWithin(t: string, a: string, b: string, c: string)
    requires Infix(t, b)
    ensures Infix(t, a + b + c)
  {
    var k :| 0 <= k <= |b| - |t| && OccursAt(t, b, k);
    var s := a + b + c;
    assert s[|a| + k..|a| + k + |t|] == b[k..k + |t|];
    assert OccursAt(t, s, |a| + k);
  }

  /** A piece of the second or the fourth of five texts is a piece of
      the five put together. */
  lemma InfixOfFive(t: string, a: string, b: string, c: string, d: string, e: string)
    requires Infix(t, b) || Infix(t, d)
    ensures Infix(t, a + b + c + d + e)
  {
    if Infix(t, b) {
      InfixWithin(t, a, b, c + d + e);
      assert a + b + (c + d + e) == a + b + c + d + e;
    } else {
      InfixWithin(t, a + b + c, d, e);
    }
  }

  lemma InfixSelf(t: string)
    ensures Infix(t, t)
  {
    assert t[0..|t|] == t;
    assert OccursAt(t, t, 0);
  }

  /** Every part of a joined list occurs in the joined text. */
  lemma {:induction false} JoinContains(sep: string, parts: seq<string>, i: nat)
    requires i < |parts|
    ensures Infix(parts[i], Join(sep, parts))
    decreases |parts|
  {
    if |parts| == 1 {
      InfixSelf(parts[0]);
    } else if i == 0 {
      InfixSelf(parts[0]);
      InfixWithin(parts[0], "", parts[0], sep + Join(sep, parts[1..]));
      assert "" + parts[0] + (sep + Join(sep, parts[1..])) == Join(sep, parts);
    } else {
      JoinContains(sep, parts[1..], i - 1);
      InfixWithin(parts[i], parts[0] + sep, Join(sep, parts[1..]), "");
      assert parts[0] + sep + Join(sep, parts[1..]) + "" == Join(sep, parts);
    }
  }

  /** The characters for which Python's `str.isspace()` holds; `str.strip()`
      with no argument removes exactly these from both ends. */
  predicate IsSpace(c: char)
  {
    || c == ' ' || c == '\t' || c == '\n' || c == '\r'
    || c == '\U{000B}' || c == '\U{000C}'
    || ('\U{001C}' <= c <= '\U{001F}')
    || c == '\U{0085}' || c == '\U{00A0}' || c == '\U{1680}'
    || ('\U{2000}' <= c <= '\U{200A}')
    || c == '\U{2028}' || c == '\U{2029}' || c == '\U{202F}'
    || c == '\U{205F}' || c == '\U{3000}'
  }

  function TrimStart(s: string): (r: string)
    ensures |r| <= |s| && r == s[|s| - |r|..]
    ensures r != [] ==> !IsSpace(r[0])
    ensures forall i :: 0 <= i < |s| - |r| ==> IsSpace(s[i])
  {
    if s != [] && IsSpace(s[0]) then TrimStart(s[1..]) else s
  }

  function TrimEnd(s: string): (r: string)
    ensures |r| <= |s| && r == s[..|r|]
    ensures r != [] ==> !IsSpace(r[|r| - 1])
    ensures forall i :: |r| <= i < |s| ==> IsSpace(s[i])
  {
    if s != [] && IsSpace(s[|s| - 1]) then TrimEnd(s[..|s| - 1]) else s
  }

  /** Trimming the start and then the end leaves a piece of `s` at `k` with
      only white space around it. */
  lemma TrimBoth(s: string)
    ensures var t := TrimStart(s); var k := |s| - |t|;
            && OccursAt(TrimEnd(t), s, k)
            && (forall i :: k + |TrimEnd(t)| <= i < |s| ==> IsSpace(s[i]))
  {
    var t := TrimStart(s);
    var k := |s| - |t|;
    forall i | k + |TrimEnd(t)| <= i < |s|
      ensures IsSpace(s[i])
    {
      assert s[i] == t[i - k];
    }
    assert s[k..k + |TrimEnd(t)|] == TrimEnd(t);
  }

  /** `s.strip()`: white space removed from both ends. What is left starts
      at `k` in `s`, and everything before and after it is white space. */
  function Strip(s: string): (r: string)
    ensures |r| <= |s|
    ensures r != "" ==> !IsSpace(r[0]) && !IsSpace(r[|r| - 1])
    ensures var k := |s| - |TrimStart(s)|;
            && OccursAt(r, s, k)
            && (forall i :: 0 <= i < k ==> IsSpace(s[i]))
            && (forall i :: k + |r| <= i < |s| ==> IsSpace(s[i]))
  {
    TrimBoth(s);
    TrimEnd(TrimStart(s))
  }

  /** `s.strip()` is empty exactly when `s` holds nothing but white space;
      otherwise it is the piece of `s` that is left once the white space at
      both ends is removed: it starts at `k`, everything before `k` and
      everything after it is white space, and it neither starts nor ends
      with white space. */
  lemma StripIsEmptyIff(s: string)
    ensures Strip(s) == "" <==> forall i :: 0 <= i < |s| ==> IsSpace(s[i])
    ensures Strip(s) != "" ==> !IsSpace(Strip(s)[0]) && !IsSpace(Strip(s)[|Strip(s)| - 1])
    ensures Infix(Strip(s), s)
    ensures var r, k := Strip(s), |s| - |TrimStart(s)|;
            && OccursAt(r, s, k)
            && (forall i :: 0 <= i < k ==> IsSpace(s[i]))
            && (forall i :: k + |r| <= i < |s| ==> IsSpace(s[i]))
  {
    var t := TrimStart(s);
    var k := |s| - |t|;
    var r := Strip(s);
    if r == "" {
      assert TrimEnd(t) == [];
    } else {
      assert t != [] && !IsSpace(t[0]);
      assert s[k] == t[0];
    }
    assert s[k..k + |r|] == r;
    assert OccursAt(r, s, k);
  }

  // ---- ordering of file names ----

  /** `a <= b` on Python strings: lexicographic by code point. */
  predicate NameAtMost(a: string, b: string)
  {
    if a == [] then true
    else if b == [] then false
    else if a[0] != b[0] then a[0] < b[0]
    else NameAtMost(a[1..], b[1..])
  }

  lemma NameAtMostTotal(a: string, b: string)
    ensures NameAtMost(a, b) || NameAtMost(b, a)
  {
  }

  lemma NameAtMostAntisymmetric(a: string, b: string)
    requires NameAtMost(a, b) && NameAtMost(b, a)
    ensures a == b
  {
    if a != [] && b != [] {
      NameAtMostAntisymmetric(a[1..], b[1..]);
      assert a == [a[0]] + a[1..] && b == [b[0]] + b[1..];
    }
  }

  lemma NameAtMostTransitive(a: string, b: string, c: string)
    requires NameAtMost(a, b) && NameAtMost(b, c)
    ensures NameAtMost(a, c)
  {
    if a != [] && b != [] && c != [] && a[0] == b[0] == c[0] {
      NameAtMostTransitive(a[1..], b[1..], c[1..]);
    }
  }

  ghost predicate SortedByName(s: seq<string>)
  {
    forall i, j :: 0 <= i < j < |s| ==> NameAtMost(s[i], s[j])
  }

  function InsertByName(x: string, s: seq<string>): (r: seq<string>)
    requires SortedByName(s)
    ensures SortedByName(r)
    ensures multiset(r) == multiset(s) + multiset{x}
    decreases |s|
  {
    if s == [] then [x]
    else if NameAtMost(x, s[0]) then
      assert forall j :: 0 <= j < |s| ==> NameAtMost(x, s[j]) by {
        forall j | 0 <= j < |s| ensures NameAtMost(x, s[j]) {
          if j > 0 { NameAtMostTransitive(x, s[0], s[j]); }
        }
      }
      [x] + s
    else
      var rest := InsertByName(x, s[1..]);
      assert s == [s[0]] + s[1..];
      NameAtMostTotal(x, s[0]);
      assert forall j :: 0 <= j < |rest| ==> NameAtMost(s[0], rest[j]) by {
        forall j | 0 <= j < |rest| ensures NameAtMost(s[0], rest[j]) {
          assert rest[j] in multiset(rest);
          if rest[j] != x {
            assert rest[j] in multiset(s[1..]);
            var m :| 0 <= m < |s[1..]| && s[1..][m] == rest[j];
            assert s[m + 1] == rest[j];
          }
        }
      }
      [s[0]] + rest
  }

  /** `list.sort(key=lambda p: p.name)` on the names: the result is sorted
      ascending and holds the same names, each as often as before. */
  function SortByName(s: seq<string>): (r: seq<string>)
    ensures SortedByName(r)
    ensures multiset(r) == multiset(s)
    ensures |r| == |s|
  {
    if s == [] then []
    else
      assert s == [s[0]] + s[1..];
      InsertByName(s[0], SortByName(s[1..]))
  }

  /** Two sorted lists with the same elements are equal: the ascending order
      of a set of names is unique, so a rerun visits the files in the same
      order whatever order the directory listing gave. */
  lemma {:induction false} SortedIsUnique(a: seq<string>, b: seq<string>)
    requires SortedByName(a) && SortedByName(b)
    requires multiset(a) == multiset(b)
    ensures a == b
    decreases |a|
  {
    assert |a| == |multiset(a)| == |multiset(b)| == |b|;
    if a != [] {
      HeadIsLeast(a, b[0]);
      HeadIsLeast(b, a[0]);
      NameAtMostAntisymmetric(a[0], b[0]);
      DropHead(a);
      DropHead(b);
      SortedIsUnique(a[1..], b[1..]);
    }
  }

  lemma HeadIsLeast(s: seq<string>, x: string)
    requires SortedByName(s) && x in multiset(s)
    ensures s != [] && NameAtMost(s[0], x)
  {
    var i :| 0 <= i < |s| && s[i] == x;
    if i == 0 {
      NameAtMostTotal(x, x);
    }
  }

  lemma DropHead(s: seq<string>)
    requires s != []
    ensures multiset(s[1..]) == multiset(s) - multiset{s[0]}
  {
    assert s == [s[0]] + s[1..];
  }

  predicate NoDuplicates<T(==)>(s: seq<T>)
  {
    forall i, j :: 0 <= i < j < |s| ==> s[i] != s[j]
  }

  /** Sorting neither loses nor duplicates names. */
  lemma SortKeepsDistinct(s: seq<string>)
    requires NoDuplicates(s)
    ensures NoDuplicates(SortByName(s))
    ensures forall x :: x in SortByName(s) <==> x in s
  {
    var r := SortByName(s);
    forall x ensures x in r <==> x in s {
      assert x in r <==> x in multiset(r);
      assert x in s <==> x in multiset(s);
    }
    forall i, j | 0 <= i < j < |r| ensures r[i] != r[j] {
      if r[i] == r[j] {
        MultiplicityAtLeastTwo(r, i, j);
        DistinctMultiplicity(s, r[i]);
        assert false;
      }
    }
  }

  lemma MultiplicityAtLeastTwo<T>(s: seq<T>, i: nat, j: nat)
    requires i < j < |s| && s[i] == s[j]
    ensures multiset(s)[s[i]] >= 2
  {
    var x := s[i];
    assert s == s[..i] + [x] + s[i + 1..j] + [x] + s[j + 1..];
  }

  lemma {:induction false} DistinctMultiplicity<T>(s: seq<T>, x: T)
    requires NoDuplicates(s)
    ensures multiset(s)[x] <= 1
    decreases |s|
  {
    if s != [] {
      assert s == [s[0]] + s[1..];
      DistinctMultiplicity(s[1..], x);
      if s[0] == x {
        assert x !in s[1..];
      }
    }
  }
}
