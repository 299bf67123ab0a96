/** Sorting data points by elapsed time, as the standard library's stable sort does. */
module StableSort {
  import opened Base
  import opened Types

  type Points = seq<DataPoint>

  predicate TimeSorted(ps: Points) {
    forall i, j :: 0 <= i < j < |ps| ==> ps[i].elapsedTime <= ps[j].elapsedTime
  }

  /** The points with elapsed time `t`, in order. */
  function At(t: int, ps: Points): Points {
    if |ps| == 0 then []
    else if ps[0].elapsedTime == t then [ps[0]] + At(t, ps[1..])
    else At(t, ps[1..])
  }

  /** After the points that are not later. */
  function Insert(p: DataPoint, sorted: Points): Points {
    if |sorted| == 0 || p.elapsedTime < sorted[0].elapsedTime then [p] + sorted
    else [sorted[0]] + Insert(p, sorted[1..])
  }

  function Sort(ps: Points): Points {
    if |ps| == 0 then [] else Insert(ps[|ps| - 1], Sort(ps[..|ps| - 1]))
  }

  lemma {:induction false} AtAppend(t: int, a: Points, b: Points)
    ensures At(t, a + b) == At(t, a) + At(t, b)
  {
    if |a| == 0 {
      assert a + b == b;
    } else {
      AtAppend(t, a[1..], b);
      assert (a + b)[1..] == a[1..] + b;
    }
  }

  lemma {:induction false} AtNothing(t: int, ps: Points)
    requires forall i :: 0 <= i < |ps| ==> ps[i].elapsedTime != t
    ensures At(t, ps) == []
  {
    if |ps| > 0 {
      AtNothing(t, ps[1..]);
    }
  }

  lemma {:induction false} InsertKeepsPoints(p: DataPoint, sorted: Points)
    ensures multiset(Insert(p, sorted)) == multiset(sorted) + multiset{p}
  {
    if |sorted| > 0 && p.elapsedTime >= sorted[0].elapsedTime {
      InsertKeepsPoints(p, sorted[1..]);
      assert sorted == [sorted[0]] + sorted[1..];
    }
  }

  lemma {:induction false} InsertKeepsSorted(p: DataPoint, sorted: Points)
    requires TimeSorted(sorted)
    ensures TimeSorted(Insert(p, sorted))
  {
    if |sorted| > 0 && p.elapsedTime >= sorted[0].elapsedTime {
      InsertKeepsSorted(p, sorted[1..]);
      InsertKeepsPoints(p, sorted[1..]);
      var rest := Insert(p, sorted[1..]);
      forall i | 0 <= i < |rest|
        ensures sorted[0].elapsedTime <= rest[i].elapsedTime
      {
        assert rest[i] in multiset(rest);
        assert rest[i] == p || rest[i] in sorted[1..];
      }
    }
  }

  lemma {:induction false} InsertIsStable(p: DataPoint, sorted: Points, t: int)
    requires TimeSorted(sorted)
    ensures At(t, Insert(p, sorted)) == At(t, sorted) + At(t, [p])
  {
    if |sorted| == 0 {
      assert Insert(p, sorted) == [] + [p];
    } else if p.elapsedTime < sorted[0].elapsedTime {
      AtAppend(t, [p], sorted);
      if t == p.elapsedTime {
        AtNothing(t, sorted);
      }
    } else {
      InsertIsStable(p, sorted[1..], t);
      var rest := Insert(p, sorted[1..]);
      assert At(t, [sorted[0]] + rest) == At(t, [sorted[0]]) + At(t, rest) by {
        AtAppend(t, [sorted[0]], rest);
      }
    }
  }

  /** `Sort` sorts, keeps every point, and keeps the order of points with equal times. */
  lemma {:induction false} SortIsStable(ps: Points)
    ensures TimeSorted(Sort(ps))
    ensures multiset(Sort(ps)) == multiset(ps)
    ensures forall t :: At(t, Sort(ps)) == At(t, ps)
  {
    if |ps| > 0 {
      var before, p := ps[..|ps| - 1], ps[|ps| - 1];
      SortIsStable(before);
      assert ps == before + [p];
      InsertKeepsPoints(p, Sort(before));
      InsertKeepsSorted(p, Sort(before));
      forall t
        ensures At(t, Sort(ps)) == At(t, ps)
      {
        InsertIsStable(p, Sort(before), t);
        AtAppend(t, before, [p]);
      }
    }
  }

  lemma {:induction false} SomeAt(t: int, ps: Points) returns (i: nat)
    requires |At(t, ps)| > 0
    ensures i < |ps| && ps[i].elapsedTime == t
  {
    if ps[0].elapsedTime == t {
      i := 0;
    } else {
      i := SomeAt(t, ps[1..]);
      i := i + 1;
    }
  }

  lemma AtHead(ps: Points)
    ensures |ps| > 0 ==> |At(ps[0].elapsedTime, ps)| > 0 && At(ps[0].elapsedTime, ps)[0] == ps[0]
  {
  }

  /** Equal selections at every time start with equal points. */
  lemma SameHead(a: Points, b: Points)
    requires TimeSorted(a) && TimeSorted(b) && forall t :: At(t, a) == At(t, b)
    ensures |a| > 0 <==> |b| > 0
    ensures |a| > 0 ==> a[0] == b[0]
  {
    AtHead(a);
    AtHead(b);
    assert |a| > 0 ==> At(a[0].elapsedTime, a) == At(a[0].elapsedTime, b);
    assert |b| > 0 ==> At(b[0].elapsedTime, a) == At(b[0].elapsedTime, b);
    if |a| > 0 && |b| > 0 {
      var i := SomeAt(a[0].elapsedTime, b);
      var j := SomeAt(b[0].elapsedTime, a);
    }
  }

  /** There is only one stable sort. */
  lemma {:induction false} StableSortIsUnique(a: Points, b: Points)
    requires TimeSorted(a) && TimeSorted(b) && forall t :: At(t, a) == At(t, b)
    ensures a == b
  {
    SameHead(a, b);
    if |a| > 0 {
      forall v
        ensures At(v, a[1..]) == At(v, b[1..])
      {
        assert At(v, a) == At(v, b);
        if v == a[0].elapsedTime {
          assert At(v, a)[1..] == At(v, a[1..]) && At(v, b)[1..] == At(v, b[1..]);
        }
      }
      StableSortIsUnique(a[1..], b[1..]);
    }
  }

  /** Any sorted rearrangement that keeps the order of equal times is the result of `Sort`. */
  lemma SortIsDetermined(ps: Points, sorted: Points)
    requires TimeSorted(sorted) && forall t :: At(t, sorted) == At(t, ps)
    ensures sorted == Sort(ps)
  {
    SortIsStable(ps);
    StableSortIsUnique(sorted, Sort(ps));
  }
}
