/**
 * The order `Array.prototype.sort` uses when it is given no comparator: strings compared
 * code unit by code unit in UTF-16, a proper prefix first. Sorting names into this order is
 * what the directory engine does before it prunes old daily files.
 */
module LexOrder {
  import opened Hashing

  /** Lexicographic order on sequences of code units; a proper prefix comes first. */
  predicate UnitsLess(a: seq<int>, b: seq<int>) {
    if |a| == 0 then |b| > 0
    else if |b| == 0 then false
    else if a[0] != b[0] then a[0] < b[0]
    else UnitsLess(a[1..], b[1..])
  }

  lemma {:induction false} UnitsLessIrreflexive(a: seq<int>)
    ensures !UnitsLess(a, a)
  {
    if |a| > 0 {
      UnitsLessIrreflexive(a[1..]);
    }
  }

  lemma {:induction false} UnitsLessTransitive(a: seq<int>, b: seq<int>, c: seq<int>)
    requires UnitsLess(a, b) && UnitsLess(b, c)
    ensures UnitsLess(a, c)
  {
    if |a| > 0 && |b| > 0 && |c| > 0 && a[0] == b[0] && b[0] == c[0] {
      UnitsLessTransitive(a[1..], b[1..], c[1..]);
    }
  }

  lemma {:induction false} UnitsLessTotal(a: seq<int>, b: seq<int>)
    requires a != b
    ensures UnitsLess(a, b) || UnitsLess(b, a)
  {
    if |a| > 0 && |b| > 0 && a[0] == b[0] {
      assert a == [a[0]] + a[1..] && b == [b[0]] + b[1..];
      UnitsLessTotal(a[1..], b[1..]);
    }
  }

  /** The units a single character contributes to `Utf16`. */
  function CharUnits(c: char): seq<int> {
    var k := c as int;
    if k < 0x1_0000 then [k] else [0xD800 + (k - 0x1_0000) / 0x400, 0xDC00 + (k - 0x1_0000) % 0x400]
  }

  lemma CharUnitsInjective(c: char, d: char)
    requires CharUnits(c)[0] == CharUnits(d)[0]
    requires |CharUnits(c)| == 2 && |CharUnits(d)| == 2 ==> CharUnits(c)[1] == CharUnits(d)[1]
    ensures c == d
  {
    var k, m := c as int, d as int;
    if k >= 0x1_0000 && m >= 0x1_0000 {
      var p, q := k - 0x1_0000, m - 0x1_0000;
      assert p == (p / 0x400) * 0x400 + p % 0x400;
      assert q == (q / 0x400) * 0x400 + q % 0x400;
    }
  }

  lemma Utf16Cons(text: string)
    requires |text| > 0
    ensures Utf16(text) == CharUnits(text[0]) + Utf16(text[1..])
  {
  }

  /** Different texts have different code units: UTF-16 loses nothing. */
  lemma {:induction false} Utf16Injective(x: string, y: string)
    requires Utf16(x) == Utf16(y)
    ensures x == y
  {
    if |x| == 0 || |y| == 0 {
      if |x| > 0 {
        Utf16Cons(x);
      } else if |y| > 0 {
        Utf16Cons(y);
      }
    } else {
      Utf16Cons(x);
      Utf16Cons(y);
      var cx, cy := CharUnits(x[0]), CharUnits(y[0]);
      var u := Utf16(x);
      assert u[0] == cx[0] == cy[0];
      // a first unit below 0xD800 or from 0xE000 up is a whole character; a surrogate is not
      assert |cx| == |cy|;
      if |cx| == 2 {
        assert u[1] == cx[1] == cy[1];
      }
      CharUnitsInjective(x[0], y[0]);
      assert Utf16(x[1..]) == u[|cx|..] == Utf16(y[1..]);
      Utf16Injective(x[1..], y[1..]);
      assert x == [x[0]] + x[1..] && y == [y[0]] + y[1..];
    }
  }

  /** `a < b` in the order of the default sort. */
  predicate NameLess(a: string, b: string) {
    UnitsLess(Utf16(a), Utf16(b))
  }

  lemma NameLessIrreflexive(a: string)
    ensures !NameLess(a, a)
  {
    UnitsLessIrreflexive(Utf16(a));
  }

  lemma NameLessTransitive(a: string, b: string, c: string)
    requires NameLess(a, b) && NameLess(b, c)
    ensures NameLess(a, c)
  {
    UnitsLessTransitive(Utf16(a), Utf16(b), Utf16(c));
  }

  /** Two different names are always ordered one way or the other. */
  lemma NameLessTotal(a: string, b: string)
    requires a != b
    ensures NameLess(a, b) || NameLess(b, a)
  {
    if Utf16(a) == Utf16(b) {
      Utf16Injective(a, b);
    }
    UnitsLessTotal(Utf16(a), Utf16(b));
  }

  predicate Sorted(s: seq<string>) {
    forall i, j :: 0 <= i < j < |s| ==> NameLess(s[i], s[j])
  }

  /** Insert a name into a sorted list of names at its place. */
  function InsertSorted(s: seq<string>, x: string): (r: seq<string>)
    requires Sorted(s) && x !in s
    ensures Sorted(r)
    ensures |r| == |s| + 1
    ensures multiset(r) == multiset(s) + multiset{x}
    ensures forall y :: y in r <==> y in s || y == x
  {
    if |s| == 0 then [x]
    else if NameLess(x, s[0]) then
      BelowHeadBelowAll(x, s);
      SortedCons(x, s);
      [x] + s
    else
      NameLessTotal(x, s[0]);
      var rest := InsertSorted(s[1..], x);
      assert s == [s[0]] + s[1..];
      HeadBelowInserted(s, x, rest);
      SortedCons(s[0], rest);
      [s[0]] + rest
  }

  /** A name before the first of a sorted list is before all of it. */
  lemma BelowHeadBelowAll(x: string, s: seq<string>)
    requires Sorted(s) && |s| > 0 && NameLess(x, s[0])
    ensures forall j :: 0 <= j < |s| ==> NameLess(x, s[j])
  {
    forall j | 0 < j < |s| ensures NameLess(x, s[j]) {
      NameLessTransitive(x, s[0], s[j]);
    }
  }

  lemma SortedCons(x: string, s: seq<string>)
    requires Sorted(s) && forall j :: 0 <= j < |s| ==> NameLess(x, s[j])
    ensures Sorted([x] + s)
  {
    forall i, j | 0 <= i < j < |[x] + s| ensures NameLess(([x] + s)[i], ([x] + s)[j]) {
      if i > 0 {
        assert ([x] + s)[i] == s[i - 1];
      }
      assert ([x] + s)[j] == s[j - 1];
    }
  }

  /** The first of a sorted list stays before everything once a later name is inserted into its tail. */
  lemma HeadBelowInserted(s: seq<string>, x: string, rest: seq<string>)
    requires Sorted(s) && |s| > 0 && NameLess(s[0], x)
    requires forall y :: y in rest <==> y in s[1..] || y == x
    ensures forall j :: 0 <= j < |rest| ==> NameLess(s[0], rest[j])
  {
    forall j | 0 <= j < |rest| ensures NameLess(s[0], rest[j]) {
      assert rest[j] in rest;
      if rest[j] != x {
        var k :| 0 <= k < |s[1..]| && s[1..][k] == rest[j];
        assert s[k + 1] == rest[j];
      }
    }
  }

  /** `entries.sort()` on names that are all different. */
  method SortNames(names: seq<string>) returns (sorted: seq<string>)
    requires forall i, j :: 0 <= i < j < |names| ==> names[i] != names[j]
    ensures Sorted(sorted)
    ensures multiset(sorted) == multiset(names)
  {
    sorted := [];
    var i := 0;
    while i < |names|
      invariant 0 <= i <= |names|
      invariant Sorted(sorted)
      invariant multiset(sorted) == multiset(names[..i])
    {
      DistinctNotBefore(names, i);
      assert names[i] !in multiset(names[..i]);
      sorted := InsertSorted(sorted, names[i]);
      assert names[..i + 1] == names[..i] + [names[i]];
      i := i + 1;
    }
    assert names[..|names|] == names;
  }

  lemma DistinctNotBefore(names: seq<string>, i: nat)
    requires i < |names|
    requires forall i, j :: 0 <= i < j < |names| ==> names[i] != names[j]
    ensures names[i] !in names[..i]
  {
  }

  /** A sorted list's head precedes every other element of it. */
  lemma SortedHeadLeast(s: seq<string>, y: string)
    requires Sorted(s) && |s| > 0 && y in s && y != s[0]
    ensures NameLess(s[0], y)
  {
    var k :| 0 <= k < |s| && s[k] == y;
  }

  /** A sorted list holds no name twice: its tail is the rest of it without the head. */
  lemma SortedTail(s: seq<string>)
    requires Sorted(s) && |s| > 0
    ensures forall y :: y in s[1..] <==> y in s && y != s[0]
  {
    if s[0] in s[1..] {
      var k :| 1 <= k < |s| && s[k] == s[0];
      NameLessIrreflexive(s[0]);
    }
    assert s == [s[0]] + s[1..];
  }

  /** The names a list holds. */
  function Names(s: seq<string>): (r: set<string>)
    ensures forall n :: n in r <==> n in s
  {
    set n | n in s
  }

  /** A sorted list holds every name once, so it has as many elements as the set of its names. */
  lemma {:induction false} SortedDistinctCard(s: seq<string>)
    requires Sorted(s)
    ensures |Names(s)| == |s|
  {
    if |s| > 0 {
      SortedTail(s);
      SortedDistinctCard(s[1..]);
      assert Names(s) == Names(s[1..]) + {s[0]};
    }
  }

  /** There is only one sorted list of a given set of names. */
  lemma {:induction false} SortedUnique(a: seq<string>, b: seq<string>)
    requires Sorted(a) && Sorted(b)
    requires forall y :: y in a <==> y in b
    ensures a == b
  {
    assert (|a| > 0 ==> a[0] in b) && (|b| > 0 ==> b[0] in a);
    if |a| > 0 && |b| > 0 {
      if a[0] != b[0] {
        SortedHeadLeast(a, b[0]);
        SortedHeadLeast(b, a[0]);
        NameLessTransitive(a[0], b[0], a[0]);
        NameLessIrreflexive(a[0]);
      }
      SortedTail(a);
      SortedTail(b);
      SortedUnique(a[1..], b[1..]);
      assert a == [a[0]] + a[1..] && b == [b[0]] + b[1..];
    }
  }

  /** The names of a set in sorted order. */
  ghost function SortSet(names: set<string>): (r: seq<string>)
    ensures Sorted(r)
    ensures forall y :: y in r <==> y in names
    ensures |r| == |names|
    decreases names
  {
    if names == {} then []
    else
      var x :| x in names;
      InsertSorted(SortSet(names - {x}), x)
  }
}
