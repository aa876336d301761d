/**
 * The meaning of `Array.prototype.sort` that the sources rely on: the result is ordered by the
 * comparator, is a permutation of the input, and keeps the input order of elements that compare
 * equal. Written as an insertion sort; everything else in the project uses the lemmas only.
 */
module StableSort {

  ghost predicate TotalPreorder<T(!new)>(le: (T, T) -> bool) {
    && (forall x, y :: le(x, y) || le(y, x))
    && (forall x, y, z :: le(x, y) && le(y, z) ==> le(x, z))
  }

  ghost predicate Sorted<T>(le: (T, T) -> bool, s: seq<T>) {
    forall i, j :: 0 <= i < j < |s| ==> le(s[i], s[j])
  }

  function Insert<T>(le: (T, T) -> bool, x: T, s: seq<T>): (r: seq<T>)
    ensures multiset(r) == multiset(s) + multiset{x}
    ensures |r| == |s| + 1
  {
    if s == [] || le(x, s[0]) then
      [x] + s
    else
      assert s == [s[0]] + s[1..];
      [s[0]] + Insert(le, x, s[1..])
  }

  function SortBy<T>(le: (T, T) -> bool, s: seq<T>): (r: seq<T>)
    ensures multiset(r) == multiset(s)
    ensures |r| == |s|
  {
    if s == [] then
      []
    else
      assert s == [s[0]] + s[1..];
      Insert(le, s[0], SortBy(le, s[1..]))
  }

  lemma {:induction false} InsertSorted<T(!new)>(le: (T, T) -> bool, x: T, s: seq<T>)
    requires TotalPreorder(le) && Sorted(le, s)
    ensures Sorted(le, Insert(le, x, s))
  {
    if s == [] || le(x, s[0]) {
      assert forall j :: 0 <= j < |s| ==> le(x, s[j]);
    } else {
      var rest := Insert(le, x, s[1..]);
      InsertSorted(le, x, s[1..]);
      forall j | 0 <= j < |rest|
        ensures le(s[0], rest[j])
      {
        assert rest[j] in multiset(rest);
        assert rest[j] == x || rest[j] in s[1..];
        assert le(s[0], x);
      }
    }
  }

  lemma {:induction false} SortBySorted<T(!new)>(le: (T, T) -> bool, s: seq<T>)
    requires TotalPreorder(le)
    ensures Sorted(le, SortBy(le, s))
  {
    if s != [] {
      SortBySorted(le, s[1..]);
      InsertSorted(le, s[0], SortBy(le, s[1..]));
    }
  }

  /** Sorting what is already sorted changes nothing. */
  lemma {:induction false} SortedIsFixed<T>(le: (T, T) -> bool, s: seq<T>)
    requires Sorted(le, s)
    ensures SortBy(le, s) == s
  {
    if s != [] {
      SortedIsFixed(le, s[1..]);
    }
  }

  /** An element is in the sorted sequence exactly when it is in the input. */
  lemma SortByMembers<T>(le: (T, T) -> bool, s: seq<T>, x: T)
    ensures x in SortBy(le, s) <==> x in s
  {
    assert x in multiset(SortBy(le, s)) <==> x in SortBy(le, s);
    assert x in multiset(s) <==> x in s;
  }

  function Filter<T>(keep: T -> bool, s: seq<T>): seq<T> {
    if s == [] then []
    else if keep(s[0]) then [s[0]] + Filter(keep, s[1..])
    else Filter(keep, s[1..])
  }

  lemma {:induction false} FilterMembers<T>(keep: T -> bool, s: seq<T>, x: T)
    ensures x in Filter(keep, s) <==> x in s && keep(x)
  {
    if s != [] {
      FilterMembers(keep, s[1..], x);
    }
  }

  lemma {:induction false} FilterConcat<T>(keep: T -> bool, a: seq<T>, b: seq<T>)
    ensures Filter(keep, a + b) == Filter(keep, a) + Filter(keep, b)
  {
    if a == [] {
      assert a + b == b;
    } else {
      assert (a + b)[1..] == a[1..] + b;
      FilterConcat(keep, a[1..], b);
    }
  }

  /** Once `x` is below an element of `s` it stays below the rest of `s`. */
  ghost predicate BelowTail<T>(le: (T, T) -> bool, x: T, s: seq<T>) {
    forall i, j :: 0 <= i <= j < |s| && le(x, s[i]) ==> le(x, s[j])
  }

  lemma SortedBelowTail<T(!new)>(le: (T, T) -> bool, x: T, s: seq<T>)
    requires TotalPreorder(le) && Sorted(le, s)
    ensures BelowTail(le, x, s)
  {
    forall i, j | 0 <= i <= j < |s| && le(x, s[i])
      ensures le(x, s[j])
    {
      assert i == j || le(s[i], s[j]);
    }
  }

  lemma {:induction false} InsertFilter<T(!new)>(le: (T, T) -> bool, keep: T -> bool, x: T, s: seq<T>)
    requires BelowTail(le, x, s)
    ensures Filter(keep, Insert(le, x, s))
         == if keep(x) then Insert(le, x, Filter(keep, s)) else Filter(keep, s)
  {
    if s == [] || le(x, s[0]) {
      assert ([x] + s)[1..] == s;
      forall y | y in Filter(keep, s)
        ensures y in s
      {
        FilterMembers(keep, s, y);
      }
      InsertAtFront(le, x, s, Filter(keep, s));
    } else {
      InsertFilter(le, keep, x, s[1..]);
      var r := Insert(le, x, s[1..]);
      assert ([s[0]] + r)[1..] == r;
      var f := Filter(keep, s[1..]);
      assert ([s[0]] + f)[1..] == f;
    }
  }

  lemma InsertAtFront<T>(le: (T, T) -> bool, x: T, s: seq<T>, f: seq<T>)
    requires BelowTail(le, x, s) && (s != [] ==> le(x, s[0]))
    requires forall y :: y in f ==> y in s
    ensures Insert(le, x, f) == [x] + f
  {
    if f != [] {
      assert f[0] in s;
    }
  }

  /** Selecting commutes with sorting: the stable order of a selection is its order within the whole. */
  lemma {:induction false} SortFilter<T(!new)>(le: (T, T) -> bool, keep: T -> bool, s: seq<T>)
    requires TotalPreorder(le)
    ensures Filter(keep, SortBy(le, s)) == SortBy(le, Filter(keep, s))
  {
    if s != [] {
      SortFilter(le, keep, s[1..]);
      var rest := SortBy(le, s[1..]);
      assert BelowTail(le, s[0], rest) by {
        SortBySorted(le, s[1..]);
        SortedBelowTail(le, s[0], rest);
      }
      SortFilterStep(le, keep, s, rest);
    }
  }

  /** Elements that compare equal keep the order of the input. */
  lemma SortKeepsTies<T(!new)>(le: (T, T) -> bool, tie: T -> bool, s: seq<T>)
    requires TotalPreorder(le) && forall x, y :: tie(x) && tie(y) ==> le(x, y)
    ensures Filter(tie, SortBy(le, s)) == Filter(tie, s)
  {
    SortFilter(le, tie, s);
    var f := Filter(tie, s);
    forall i, j | 0 <= i < j < |f|
      ensures le(f[i], f[j])
    {
      FilterMembers(tie, s, f[i]);
      FilterMembers(tie, s, f[j]);
    }
    SortedIsFixed(le, f);
  }

  lemma SortFilterStep<T(!new)>(le: (T, T) -> bool, keep: T -> bool, s: seq<T>, rest: seq<T>)
    requires s != [] && rest == SortBy(le, s[1..]) && BelowTail(le, s[0], rest)
    requires Filter(keep, rest) == SortBy(le, Filter(keep, s[1..]))
    ensures Filter(keep, SortBy(le, s)) == SortBy(le, Filter(keep, s))
  {
    InsertFilter(le, keep, s[0], rest);
    var f := Filter(keep, s[1..]);
    assert ([s[0]] + f)[1..] == f;
  }
}
