/** The stable sort every list in these components goes through, for an arbitrary comparison. */
module StableSort {

  /** Puts `x` behind the last element that does not come after it. */
  function Insert<T>(le: (T, T) -> bool, s: seq<T>, x: T): seq<T> {
    if s == [] || le(s[|s| - 1], x) then s + [x]
    else Insert(le, s[..|s| - 1], x) + [s[|s| - 1]]
  }

  function Sort<T>(le: (T, T) -> bool, s: seq<T>): seq<T> {
    if s == [] then [] else Insert(le, Sort(le, s[..|s| - 1]), s[|s| - 1])
  }

  ghost predicate Sorted<T>(le: (T, T) -> bool, s: seq<T>) {
    forall i, j :: 0 <= i < j < |s| ==> le(s[i], s[j])
  }

  ghost predicate TotalPreorder<T(!new)>(le: (T, T) -> bool) {
    && (forall a, b :: le(a, b) || le(b, a))
    && (forall a, b, c :: le(a, b) && le(b, c) ==> le(a, c))
  }

  lemma {:induction false} InsertPermutes<T>(le: (T, T) -> bool, s: seq<T>, x: T)
    ensures multiset(Insert(le, s, x)) == multiset(s) + multiset{x}
  {
    if s != [] && !le(s[|s| - 1], x) {
      InsertPermutes(le, s[..|s| - 1], x);
      assert s == s[..|s| - 1] + [s[|s| - 1]];
    }
  }

  lemma {:induction false} SortPermutes<T>(le: (T, T) -> bool, s: seq<T>)
    ensures multiset(Sort(le, s)) == multiset(s)
  {
    if s != [] {
      SortPermutes(le, s[..|s| - 1]);
      InsertPermutes(le, Sort(le, s[..|s| - 1]), s[|s| - 1]);
      assert s == s[..|s| - 1] + [s[|s| - 1]];
    }
  }

  lemma SameMembers<T>(a: seq<T>, b: seq<T>)
    requires multiset(a) == multiset(b)
    ensures forall x :: x in a <==> x in b
    ensures |a| == |b|
  {
    assert forall x :: x in a <==> x in multiset(a);
    assert forall x :: x in b <==> x in multiset(b);
    assert |multiset(a)| == |a| && |multiset(b)| == |b|;
  }

  lemma {:induction false} InsertSorts<T(!new)>(le: (T, T) -> bool, s: seq<T>, x: T)
    requires TotalPreorder(le) && Sorted(le, s)
    ensures Sorted(le, Insert(le, s, x))
  {
    if s != [] && !le(s[|s| - 1], x) {
      var init, last := s[..|s| - 1], s[|s| - 1];
      InsertSorts(le, init, x);
      InsertPermutes(le, init, x);
      var t := Insert(le, init, x);
      SameMembers(t, init + [x]);
      forall i | 0 <= i < |t| ensures le(t[i], last) {
        assert t[i] in init + [x];
      }
    }
  }

  lemma {:induction false} SortSorts<T(!new)>(le: (T, T) -> bool, s: seq<T>)
    requires TotalPreorder(le)
    ensures Sorted(le, Sort(le, s))
  {
    if s != [] {
      SortSorts(le, s[..|s| - 1]);
      InsertSorts(le, Sort(le, s[..|s| - 1]), s[|s| - 1]);
    }
  }

  lemma {:induction false} SortOfSorted<T>(le: (T, T) -> bool, s: seq<T>)
    requires Sorted(le, s)
    ensures Sort(le, s) == s
  {
    if s != [] { SortOfSorted(le, s[..|s| - 1]); }
  }

  /** Sorted lists of the same elements are equal when no two different elements tie. */
  lemma {:induction false} SortedIsUnique<T(!new)>(le: (T, T) -> bool, a: seq<T>, b: seq<T>)
    requires Sorted(le, a) && Sorted(le, b) && multiset(a) == multiset(b) && TotalPreorder(le)
    requires forall x, y :: x in a && y in a && le(x, y) && le(y, x) ==> x == y
    ensures a == b
  {
    SameMembers(a, b);
    if a != [] {
      var x, y := a[|a| - 1], b[|b| - 1];
      assert x in b && y in a;
      var i :| 0 <= i < |b| && b[i] == x;
      var j :| 0 <= j < |a| && a[j] == y;
      assert le(y, x) && le(x, y) by {
        assert le(x, x);
      }
      DropLast(a, b);
      SortedIsUnique(le, a[..|a| - 1], b[..|b| - 1]);
      assert a == a[..|a| - 1] + [x];
      assert b == b[..|b| - 1] + [y];
    }
  }

  lemma DropLast<T>(a: seq<T>, b: seq<T>)
    requires a != [] && b != [] && a[|a| - 1] == b[|b| - 1] && multiset(a) == multiset(b)
    ensures multiset(a[..|a| - 1]) == multiset(b[..|b| - 1])
    ensures forall x :: x in a[..|a| - 1] ==> x in a
  {
    assert a == a[..|a| - 1] + [a[|a| - 1]];
    assert b == b[..|b| - 1] + [b[|b| - 1]];
    assert multiset(a[..|a| - 1]) == multiset(a) - multiset{a[|a| - 1]};
    assert multiset(b[..|b| - 1]) == multiset(b) - multiset{b[|b| - 1]};
  }

  /** Elements of one tie class, in order. */
  function Ties<T>(le: (T, T) -> bool, x: T, s: seq<T>): seq<T> {
    if s == [] then []
    else
      var last := s[|s| - 1];
      Ties(le, x, s[..|s| - 1]) + if le(x, last) && le(last, x) then [last] else []
  }

  lemma {:induction false} TiesConcat<T>(le: (T, T) -> bool, x: T, s: seq<T>, t: seq<T>)
    ensures Ties(le, x, s + t) == Ties(le, x, s) + Ties(le, x, t)
  {
    if t == [] {
      assert s + t == s;
    } else {
      assert (s + t)[..|s + t| - 1] == s + t[..|t| - 1];
      TiesConcat(le, x, s, t[..|t| - 1]);
    }
  }

  lemma TiesOfOne<T>(le: (T, T) -> bool, x: T, y: T)
    ensures Ties(le, x, [y]) == if le(x, y) && le(y, x) then [y] else []
  {
    assert [y][..0] == [];
  }

  /** Two elements that do not tie are not both tied to a third. */
  lemma NotBothTie<T(!new)>(le: (T, T) -> bool, x: T, last: T, y: T)
    requires TotalPreorder(le) && !le(last, y)
    ensures Ties(le, x, [last]) == [] || Ties(le, x, [y]) == []
  {
    TiesOfOne(le, x, last);
    TiesOfOne(le, x, y);
    assert le(last, x) && le(x, y) ==> le(last, y);
  }

  /** Elements that are not both tied to `x` may trade places. */
  lemma SwapTies<T>(le: (T, T) -> bool, x: T, init: seq<T>, last: T, y: T)
    requires Ties(le, x, [last]) == [] || Ties(le, x, [y]) == []
    ensures Ties(le, x, init + [y] + [last]) == Ties(le, x, init + [last] + [y])
  {
    TiesConcat(le, x, init + [y], [last]);
    TiesConcat(le, x, init, [y]);
    TiesConcat(le, x, init + [last], [y]);
    TiesConcat(le, x, init, [last]);
  }

  lemma {:induction false} InsertKeepsTies<T(!new)>(le: (T, T) -> bool, x: T, s: seq<T>, y: T)
    requires TotalPreorder(le)
    ensures Ties(le, x, Insert(le, s, y)) == Ties(le, x, s + [y])
  {
    if s != [] && !le(s[|s| - 1], y) {
      var init, last := s[..|s| - 1], s[|s| - 1];
      InsertKeepsTies(le, x, init, y);
      NotBothTie(le, x, last, y);
      SwapTies(le, x, init, last, y);
      TiesConcat(le, x, Insert(le, init, y), [last]);
      TiesConcat(le, x, init + [y], [last]);
      assert s == init + [last];
    }
  }

  lemma ExtendTies<T>(le: (T, T) -> bool, x: T, s: seq<T>, t: seq<T>, last: T)
    requires Ties(le, x, s) == Ties(le, x, t)
    ensures Ties(le, x, s + [last]) == Ties(le, x, t + [last])
  {
    TiesConcat(le, x, s, [last]);
    TiesConcat(le, x, t, [last]);
  }

  lemma SortSnoc<T>(le: (T, T) -> bool, s: seq<T>, last: T)
    ensures Sort(le, s + [last]) == Insert(le, Sort(le, s), last)
  {
    assert (s + [last])[..|s|] == s;
  }

  /** The sort is stable: elements that tie keep their order. */
  lemma {:induction false} SortIsStable<T(!new)>(le: (T, T) -> bool, x: T, s: seq<T>)
    requires TotalPreorder(le)
    ensures Ties(le, x, Sort(le, s)) == Ties(le, x, s)
  {
    if s == [] {
      assert Sort(le, s) == s;
    } else {
      var init, last := s[..|s| - 1], s[|s| - 1];
      assert s == init + [last];
      SortIsStable(le, x, init);
      SortStep(le, x, init, last);
    }
  }

  lemma SortStep<T(!new)>(le: (T, T) -> bool, x: T, init: seq<T>, last: T)
    requires TotalPreorder(le) && Ties(le, x, Sort(le, init)) == Ties(le, x, init)
    ensures Ties(le, x, Sort(le, init + [last])) == Ties(le, x, init + [last])
  {
    SortSnoc(le, init, last);
    InsertKeepsTies(le, x, Sort(le, init), last);
    ExtendTies(le, x, Sort(le, init), init, last);
  }
}
