/** Filtering, flattening and mapping of sequences, with the facts about membership the components need. */
module Sequences {
  import opened Wrappers

  function Filter<T>(xs: seq<T>, keep: T -> bool): seq<T> {
    if xs == [] then [] else Filter(xs[..|xs| - 1], keep) + (if keep(xs[|xs| - 1]) then [xs[|xs| - 1]] else [])
  }

  function FlatMap<T, U>(xs: seq<T>, f: T -> seq<U>): seq<U> {
    if xs == [] then [] else FlatMap(xs[..|xs| - 1], f) + f(xs[|xs| - 1])
  }

  /** The results in order, or None as soon as one is missing. */
  function Collect<T, U>(xs: seq<T>, f: T -> Option<U>): Option<seq<U>> {
    if xs == [] then Some([])
    else
      match Collect(xs[..|xs| - 1], f)
      case None => None
      case Some(us) => match f(xs[|xs| - 1]) case None => None case Some(u) => Some(us + [u])
  }

  /** Adding to a set that keeps insertion order. */
  function Add<T(==)>(xs: seq<T>, x: T): seq<T> {
    if x in xs then xs else xs + [x]
  }

  /** First occurrences, in order. */
  function Dedup<T(==)>(xs: seq<T>): seq<T> {
    if xs == [] then [] else Add(Dedup(xs[..|xs| - 1]), xs[|xs| - 1])
  }

  ghost predicate Distinct<T>(xs: seq<T>) {
    forall i, j :: 0 <= i < j < |xs| ==> xs[i] != xs[j]
  }

  lemma SplitLast<T>(xs: seq<T>)
    requires xs != []
    ensures xs == xs[..|xs| - 1] + [xs[|xs| - 1]]
  {
  }

  lemma EmptyOrMember<T>(xs: seq<T>)
    ensures xs == [] <==> !exists x :: x in xs
  {
    if xs != [] { assert xs[0] in xs; }
  }

  lemma {:induction false} FilterMember<T>(xs: seq<T>, keep: T -> bool, x: T)
    ensures x in Filter(xs, keep) <==> x in xs && keep(x)
  {
    if xs != [] {
      SplitLast(xs);
      FilterMember(xs[..|xs| - 1], keep, x);
    }
  }

  lemma {:induction false} DedupAre<T>(xs: seq<T>)
    ensures Distinct(Dedup(xs)) && forall x :: x in Dedup(xs) <==> x in xs
  {
    if xs != [] {
      DedupAre(xs[..|xs| - 1]);
      SplitLast(xs);
    }
  }

  lemma {:induction false} FilterDistinct<T>(xs: seq<T>, keep: T -> bool)
    requires Distinct(xs)
    ensures Distinct(Filter(xs, keep))
  {
    if xs != [] {
      var init, last := xs[..|xs| - 1], xs[|xs| - 1];
      SplitLast(xs);
      assert Distinct(init) && last !in init;
      FilterDistinct(init, keep);
      FilterMember(init, keep, last);
    }
  }

  lemma {:induction false} FilterSame<T>(xs: seq<T>, p: T -> bool, q: T -> bool)
    requires forall x :: x in xs ==> p(x) == q(x)
    ensures Filter(xs, p) == Filter(xs, q)
  {
    if xs != [] {
      SplitLast(xs);
      FilterSame(xs[..|xs| - 1], p, q);
    }
  }

  /** Filtering by the stricter test, before or after the laxer one, is the same: order is kept and nothing else is lost. */
  lemma {:induction false} FilterThrough<T>(xs: seq<T>, lax: T -> bool, strict: T -> bool)
    requires forall x :: x in xs && strict(x) ==> lax(x)
    ensures Filter(Filter(xs, lax), strict) == Filter(xs, strict)
  {
    if xs != [] {
      SplitLast(xs);
      FilterThrough(xs[..|xs| - 1], lax, strict);
      var init, last := Filter(xs[..|xs| - 1], lax), xs[|xs| - 1];
      if lax(last) {
        assert (init + [last])[..|init|] == init;
        assert Filter(init + [last], strict) == Filter(init, strict) + (if strict(last) then [last] else []);
      } else {
        assert Filter(xs, lax) == init;
        assert last in xs;
      }
    }
  }

  lemma {:induction false} FlatMapMember<T, U>(xs: seq<T>, f: T -> seq<U>, y: U)
    ensures y in FlatMap(xs, f) <==> exists x :: x in xs && y in f(x)
  {
    if xs != [] {
      var init, last := xs[..|xs| - 1], xs[|xs| - 1];
      SplitLast(xs);
      FlatMapMember(init, f, y);
      if x :| x in xs && y in f(x) { assert x in init || x == last; }
    }
  }

  lemma {:induction false} CollectTotal<T, U>(xs: seq<T>, f: T -> Option<U>)
    requires forall x :: x in xs ==> f(x).Some?
    ensures Collect(xs, f).Some?
  {
    if xs != [] {
      SplitLast(xs);
      CollectTotal(xs[..|xs| - 1], f);
    }
  }

  /** What was collected is, place by place, what each element gave. */
  lemma {:induction false} Collected<T, U>(xs: seq<T>, f: T -> Option<U>)
    requires Collect(xs, f).Some?
    ensures var us := Collect(xs, f).value;
            |us| == |xs| && forall i :: 0 <= i < |xs| ==> f(xs[i]) == Some(us[i])
  {
    if xs != [] { Collected(xs[..|xs| - 1], f); }
  }
}
