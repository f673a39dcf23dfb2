/** Orders and sorting shared by the components: strings by code unit, and a stable sort by any comparison. */
module Ordering {
  import opened Sequences

  // ---------- strings by code unit ----------

  predicate StringLess(a: string, b: string) {
    b != [] && (a == [] || a[0] < b[0] || (a[0] == b[0] && StringLess(a[1..], b[1..])))
  }

  lemma {:induction false} StringOrder(a: string, b: string)
    ensures StringLess(a, b) ==> !StringLess(b, a) && a != b
    ensures a != b ==> StringLess(a, b) || StringLess(b, a)
  {
    if a != [] && b != [] && a[0] == b[0] {
      StringOrder(a[1..], b[1..]);
      assert a == [a[0]] + a[1..] && b == [b[0]] + b[1..];
    }
  }

  lemma {:induction false} StringTransitive(a: string, b: string, c: string)
    requires StringLess(a, b) && StringLess(b, c)
    ensures StringLess(a, c)
  {
    if a != [] && a[0] == b[0] == c[0] { StringTransitive(a[1..], b[1..], c[1..]); }
  }

  // ---------- a stable sort ----------

  type Comparison<!T> = (T, T) -> bool

  /** After every element that does not come after it. */
  function Insert<T>(x: T, sorted: seq<T>, le: Comparison<T>): seq<T> {
    if sorted == [] then [x]
    else if le(sorted[|sorted| - 1], x) then sorted + [x]
    else Insert(x, sorted[..|sorted| - 1], le) + [sorted[|sorted| - 1]]
  }

  function Sort<T>(xs: seq<T>, le: Comparison<T>): seq<T> {
    if xs == [] then [] else Insert(xs[|xs| - 1], Sort(xs[..|xs| - 1], le), le)
  }

  predicate Sorted<T>(xs: seq<T>, le: Comparison<T>) {
    forall i, j :: 0 <= i < j < |xs| ==> le(xs[i], xs[j])
  }

  ghost predicate TotalPreorder<T(!new)>(le: Comparison<T>) {
    && (forall a, b :: le(a, b) || le(b, a))
    && (forall a, b, c :: le(a, b) && le(b, c) ==> le(a, c))
  }

  lemma {:induction false} InsertCounts<T>(x: T, sorted: seq<T>, le: Comparison<T>)
    ensures multiset(Insert(x, sorted, le)) == multiset(sorted) + multiset{x}
  {
    if sorted != [] {
      InsertCounts(x, sorted[..|sorted| - 1], le);
      assert sorted == sorted[..|sorted| - 1] + [sorted[|sorted| - 1]];
    }
  }

  lemma {:induction false} SortCounts<T>(xs: seq<T>, le: Comparison<T>)
    ensures multiset(Sort(xs, le)) == multiset(xs)
  {
    if xs != [] {
      CountsSplit(xs);
      SortCounts(xs[..|xs| - 1], le);
      InsertCounts(xs[|xs| - 1], Sort(xs[..|xs| - 1], le), le);
    }
  }

  lemma CountsSplit<T>(xs: seq<T>)
    requires xs != []
    ensures multiset(xs) == multiset(xs[..|xs| - 1]) + multiset{xs[|xs| - 1]}
  {
    SplitLast(xs);
  }

  lemma {:induction false} InsertSorts<T(!new)>(x: T, sorted: seq<T>, le: Comparison<T>)
    requires TotalPreorder(le) && Sorted(sorted, le)
    ensures Sorted(Insert(x, sorted, le), le)
  {
    if sorted == [] {
    } else if le(sorted[|sorted| - 1], x) {
      forall i | 0 <= i < |sorted|
        ensures le(sorted[i], x)
      {
        assert i == |sorted| - 1 || le(sorted[i], sorted[|sorted| - 1]);
      }
    } else {
      var init, last := sorted[..|sorted| - 1], sorted[|sorted| - 1];
      InsertSorts(x, init, le);
      var placed := Insert(x, init, le);
      InsertCounts(x, init, le);
      forall i | 0 <= i < |placed|
        ensures le(placed[i], last)
      {
        assert placed[i] in multiset(placed);
        assert placed[i] in init || placed[i] == x;
      }
    }
  }

  lemma {:induction false} SortSorts<T(!new)>(xs: seq<T>, le: Comparison<T>)
    requires TotalPreorder(le)
    ensures Sorted(Sort(xs, le), le)
  {
    if xs != [] {
      SortSorts(xs[..|xs| - 1], le);
      InsertSorts(xs[|xs| - 1], Sort(xs[..|xs| - 1], le), le);
    }
  }

  lemma {:induction false} InsertKeepsOrder<T>(x: T, sorted: seq<T>, le: Comparison<T>, tied: T -> bool)
    requires forall y :: y in sorted && tied(y) && tied(x) ==> le(y, x)
    ensures Filter(Insert(x, sorted, le), tied) == Filter(sorted, tied) + (if tied(x) then [x] else [])
  {
    if sorted == [] {
      assert Filter([x], tied) == Filter([], tied) + (if tied(x) then [x] else []);
    } else {
      var init, last := sorted[..|sorted| - 1], sorted[|sorted| - 1];
      SplitLast(sorted);
      if le(last, x) {
        assert (sorted + [x])[..|sorted|] == sorted;
      } else {
        InsertKeepsOrder(x, init, le, tied);
        assert (Insert(x, init, le) + [last])[..|Insert(x, init, le)|] == Insert(x, init, le);
      }
    }
  }

  /** The sort is stable: elements that tie with one another keep their order. */
  lemma {:induction false} SortKeepsOrder<T>(xs: seq<T>, le: Comparison<T>, tied: T -> bool)
    requires forall x, y :: x in xs && y in xs && tied(x) && tied(y) ==> le(x, y)
    ensures Filter(Sort(xs, le), tied) == Filter(xs, tied)
  {
    if xs != [] {
      var init, last := xs[..|xs| - 1], xs[|xs| - 1];
      SplitLast(xs);
      SortKeepsOrder(init, le, tied);
      SortCounts(init, le);
      forall y | y in Sort(init, le) && tied(y) && tied(last)
        ensures le(y, last)
      {
        assert y in multiset(Sort(init, le));
      }
      InsertKeepsOrder(last, Sort(init, le), le, tied);
    }
  }

  lemma {:induction false} DistinctCounts<T>(xs: seq<T>)
    ensures Distinct(xs) <==> forall x :: x in xs ==> multiset(xs)[x] == 1
  {
    if xs != [] {
      var init, last := xs[..|xs| - 1], xs[|xs| - 1];
      SplitLast(xs);
      DistinctCounts(init);
      if Distinct(xs) {
        assert Distinct(init) && last !in init;
      } else if last !in init {
        assert !Distinct(init);
        var x :| x in init && multiset(init)[x] != 1;
        assert x in xs && multiset(xs)[x] != 1;
      } else {
        assert multiset(xs) == multiset(init) + multiset{last} by { assert xs == init + [last]; }
        assert last in multiset(init) && last in xs;
      }
    }
  }

  /** A sort repeats nothing that was not repeated. */
  lemma SortDistinct<T>(xs: seq<T>, le: Comparison<T>)
    requires Distinct(xs)
    ensures Distinct(Sort(xs, le)) && forall x :: x in Sort(xs, le) <==> x in xs
  {
    SortCounts(xs, le);
    DistinctCounts(xs);
    DistinctCounts(Sort(xs, le));
    forall x
      ensures x in Sort(xs, le) <==> x in xs
    {
      assert x in Sort(xs, le) <==> x in multiset(Sort(xs, le));
    }
  }
}
