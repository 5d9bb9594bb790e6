/** Sorting by a comparison: the result is the only strictly sorted list of the same elements. */
module Sorting {

  /** less orders the elements of S linearly. */
  ghost predicate Orders<T(!new)>(less: (T, T) -> bool, S: set<T>) {
    && (forall a :: a in S ==> !less(a, a))
    && (forall a, b :: a in S && b in S && a != b ==> less(a, b) || less(b, a))
    && (forall a, b, c :: a in S && b in S && c in S && less(a, b) && less(b, c) ==> less(a, c))
  }

  ghost predicate Distinct<T>(s: seq<T>) {
    forall x, y :: 0 <= x < y < |s| ==> s[x] != s[y]
  }

  function Elements<T>(s: seq<T>): set<T> { set x | x in s }

  ghost predicate Ascending<T>(less: (T, T) -> bool, s: seq<T>) {
    forall i, j :: 0 <= i < j < |s| ==> less(s[i], s[j])
  }

  lemma {:induction false} Sizes<T>(s: seq<T>)
    requires Distinct(s)
    ensures |Elements(s)| == |s|
  {
    if s != [] {
      var front, x := s[..|s| - 1], s[|s| - 1];
      assert s == front + [x];
      Sizes(front);
      assert Elements(s) == Elements(front) + {x};
    }
  }

  lemma Joined<T>(less: (T, T) -> bool, a: seq<T>, b: seq<T>)
    requires Ascending(less, a) && Ascending(less, b) && forall x, y :: x in a && y in b ==> less(x, y)
    ensures Ascending(less, a + b)
  {
  }

  function Insert<T>(less: (T, T) -> bool, x: T, s: seq<T>): (r: seq<T>)
    ensures |r| == |s| + 1
  {
    if s == [] || less(x, s[0]) then [x] + s else [s[0]] + Insert(less, x, s[1..])
  }

  function Sort<T>(less: (T, T) -> bool, s: seq<T>): (r: seq<T>)
    ensures |r| == |s|
  {
    if s == [] then [] else Insert(less, s[0], Sort(less, s[1..]))
  }

  lemma {:induction false} InsertElements<T>(less: (T, T) -> bool, x: T, s: seq<T>)
    ensures Elements(Insert(less, x, s)) == Elements(s) + {x}
  {
    if s != [] && !less(x, s[0]) {
      InsertElements(less, x, s[1..]);
      assert s == [s[0]] + s[1..];
      assert Elements(s) == {s[0]} + Elements(s[1..]);
      var r := Insert(less, x, s[1..]);
      assert Elements([s[0]] + r) == {s[0]} + Elements(r);
    } else {
      assert Elements([x] + s) == Elements(s) + {x};
    }
  }

  lemma {:induction false} InsertAscending<T(!new)>(less: (T, T) -> bool, x: T, s: seq<T>)
    requires Orders(less, Elements(s) + {x}) && x !in s && Ascending(less, s)
    ensures Ascending(less, Insert(less, x, s))
  {
    if s == [] {
    } else if less(x, s[0]) {
      forall j | 0 <= j < |s| ensures less(x, s[j]) {
        if j > 0 { assert less(s[0], s[j]) && s[0] in s && s[j] in s; }
      }
    } else {
      var rest := s[1..];
      assert s[0] in s && less(s[0], x);
      assert Elements(rest) <= Elements(s);
      InsertAscending(less, x, rest);
      InsertElements(less, x, rest);
      var r := Insert(less, x, rest);
      forall j | 0 <= j < |r| ensures less(s[0], r[j]) {
        assert r[j] in Elements(r);
        if r[j] != x {
          var i :| 0 <= i < |rest| && rest[i] == r[j];
          assert s[1 + i] == r[j];
        }
      }
    }
  }

  /** Sorting gives the same elements in order. */
  lemma {:induction false} SortIsSorted<T(!new)>(less: (T, T) -> bool, s: seq<T>)
    requires Orders(less, Elements(s))
    requires Distinct(s)
    ensures Ascending(less, Sort(less, s)) && Elements(Sort(less, s)) == Elements(s)
  {
    if s != [] {
      var rest := s[1..];
      assert s == [s[0]] + rest;
      assert Elements(s) == {s[0]} + Elements(rest);
      SortIsSorted(less, rest);
      var r := Sort(less, rest);
      assert s[0] !in rest;
      assert s[0] !in r by { assert s[0] !in Elements(r); }
      InsertElements(less, s[0], r);
      InsertAscending(less, s[0], r);
    }
  }

  lemma SomeElement<T>(s: seq<T>)
    ensures Elements(s) == {} <==> s == []
  {
    if s != [] { assert s[0] in Elements(s); }
  }

  lemma HeadFirst<T>(less: (T, T) -> bool, s: seq<T>, x: T)
    requires Ascending(less, s) && x in s
    ensures x == s[0] || less(s[0], x)
  {
  }

  lemma SameHead<T(!new)>(less: (T, T) -> bool, s: seq<T>, t: seq<T>)
    requires Orders(less, Elements(s)) && Ascending(less, s) && Ascending(less, t) && Elements(s) == Elements(t)
    requires s != [] && t != []
    ensures s[0] == t[0]
  {
    assert s[0] in Elements(t) && t[0] in Elements(s);
    HeadFirst(less, s, t[0]);
    HeadFirst(less, t, s[0]);
  }

  lemma OrdersPart<T(!new)>(less: (T, T) -> bool, S: set<T>, T': set<T>)
    requires Orders(less, S) && T' <= S
    ensures Orders(less, T')
  {
  }

  /** The elements after the head are the others. */
  ghost function Rest<T(!new)>(less: (T, T) -> bool, s: seq<T>): (r: set<T>)
    requires s != [] && Orders(less, Elements(s)) && Ascending(less, s)
    ensures r == Elements(s[1..])
  {
    assert forall x :: x in s[1..] <==> x in s && x != s[0] by {
      forall x | x in s && x != s[0] ensures x in s[1..] {
        var i :| 0 <= i < |s| && s[i] == x;
        assert s[1..][i - 1] == x;
      }
      forall x | x in s[1..] ensures x in s && x != s[0] {
        var i :| 0 <= i < |s| - 1 && s[1..][i] == x;
        assert s[1 + i] == x && less(s[0], s[1 + i]) && s[0] in Elements(s);
      }
    }
    Elements(s) - {s[0]}
  }

  /** There is one ascending list of given elements. */
  lemma {:induction false} AscendingUnique<T(!new)>(less: (T, T) -> bool, s: seq<T>, t: seq<T>)
    requires Orders(less, Elements(s)) && Ascending(less, s) && Ascending(less, t) && Elements(s) == Elements(t)
    ensures s == t
  {
    hide Orders;
    SomeElement(s);
    SomeElement(t);
    if s != [] {
      SameHead(less, s, t);
      assert Rest(less, s) == Rest(less, t);
      assert Elements(s[1..]) <= Elements(s);
      OrdersPart(less, Elements(s), Elements(s[1..]));
      AscendingUnique(less, s[1..], t[1..]);
      assert s == [s[0]] + s[1..] && t == [t[0]] + t[1..];
    }
  }

  /** Sorting does not depend on the order of the input. */
  lemma SortIgnoresOrder<T(!new)>(less: (T, T) -> bool, s: seq<T>, t: seq<T>)
    requires Orders(less, Elements(s)) && Elements(s) == Elements(t)
    requires Distinct(s)
    requires Distinct(t)
    ensures Sort(less, s) == Sort(less, t)
  {
    hide Sort;
    SortIsSorted(less, s);
    SortIsSorted(less, t);
    AscendingUnique(less, Sort(less, s), Sort(less, t));
  }
}
