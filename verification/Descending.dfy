/** Rows of reals sorted from the largest value down. */
module Descending {

  function PutDown(v: seq<real>, x: real): (w: seq<real>)
    ensures |w| == |v| + 1 && multiset(w) == multiset(v) + multiset{x}
  {
    if v == [] then [x]
    else if x >= v[0] then [x] + v
    else
      assert v == [v[0]] + v[1..];
      [v[0]] + PutDown(v[1..], x)
  }

  /** A row sorted from the largest value down. */
  function SortDown(v: seq<real>): (w: seq<real>)
    ensures |w| == |v| && multiset(w) == multiset(v)
  {
    if v == [] then []
    else
      assert v == v[..|v| - 1] + [v[|v| - 1]];
      PutDown(SortDown(v[..|v| - 1]), v[|v| - 1])
  }

  ghost predicate Falling(v: seq<real>) { forall i, j :: 0 <= i < j < |v| ==> v[i] >= v[j] }

  lemma HeadLargest(v: seq<real>, x: real)
    requires Falling(v) && x in multiset(v)
    ensures v != [] && x <= v[0]
  {
  }

  lemma TailFalls(v: seq<real>)
    requires Falling(v) && v != []
    ensures Falling(v[1..])
  {
  }

  lemma TailBag(v: seq<real>)
    requires v != []
    ensures multiset(v[1..]) == multiset(v) - multiset{v[0]} && v[0] in multiset(v)
  {
    assert v == [v[0]] + v[1..];
  }

  lemma PutFirst(x: real, v: seq<real>)
    requires Falling(v) && (v != [] ==> x >= v[0])
    ensures Falling([x] + v)
  {
  }

  lemma {:induction false} PutDownFalls(v: seq<real>, x: real)
    requires Falling(v)
    ensures Falling(PutDown(v, x)) && PutDown(v, x)[0] == if v != [] && x < v[0] then v[0] else x
  {
    hide Falling;
    if v != [] && x < v[0] {
      TailFalls(v);
      PutDownFalls(v[1..], x);
      if v[1..] != [] { TailBag(v); HeadLargest(v, v[1]); }
      PutFirst(v[0], PutDown(v[1..], x));
    } else {
      PutFirst(x, v);
      assert v == [] ==> [x] + v == [x];
    }
  }

  lemma {:induction false} SortDownFalls(v: seq<real>)
    ensures Falling(SortDown(v))
  {
    if v != [] {
      SortDownFalls(v[..|v| - 1]);
      PutDownFalls(SortDown(v[..|v| - 1]), v[|v| - 1]);
    }
  }

  lemma Rejoined(v: seq<real>)
    requires v != []
    ensures v == [v[0]] + v[1..]
  {
  }

  lemma HeadsMeet(v: seq<real>, w: seq<real>)
    requires v != [] && w != [] && Falling(v) && Falling(w) && multiset(v) == multiset(w)
    ensures v[0] == w[0] && multiset(v[1..]) == multiset(w[1..])
  {
    hide Falling;
    TailBag(v);
    TailBag(w);
    HeadLargest(w, v[0]);
    HeadLargest(v, w[0]);
  }

  /** There is one falling order, so the library's sort gives this one. */
  lemma {:induction false} FallingUnique(v: seq<real>, w: seq<real>)
    requires Falling(v) && Falling(w) && multiset(v) == multiset(w)
    ensures v == w
    decreases |v|
  {
    hide Falling;
    assert |v| == |multiset(v)| == |multiset(w)| == |w|;
    if v != [] {
      HeadsMeet(v, w);
      TailFalls(v);
      TailFalls(w);
      FallingUnique(v[1..], w[1..]);
      Rejoined(v);
      Rejoined(w);
    }
  }
}
