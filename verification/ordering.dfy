/** `.sort({ timestamp: -1 })`: ordering a result set newest-first. The
    database leaves the order of equal timestamps unspecified; the model
    keeps such records in their stored order. */
module Ordering {

  /** `xs` is non-increasing under `key`. */
  predicate SortedDesc<T>(xs: seq<T>, key: T -> int) {
    forall i, j | 0 <= i < j < |xs| :: key(xs[i]) >= key(xs[j])
  }

  /** Inserts `x` into a non-increasing sequence, before the first element
      whose key is not larger than its own. */
  function InsertDesc<T>(x: T, xs: seq<T>, key: T -> int): (r: seq<T>)
    requires SortedDesc(xs, key)
    ensures |r| == |xs| + 1
    ensures r[0] == x || (|xs| > 0 && r[0] == xs[0])
    ensures multiset(r) == multiset(xs) + multiset{x}
    ensures SortedDesc(r, key)
  {
    if |xs| == 0 then [x]
    else if key(x) >= key(xs[0]) then [x] + xs
    else
      var rest := InsertDesc(x, xs[1..], key);
      assert xs == [xs[0]] + xs[1..];
      assert key(xs[0]) >= key(rest[0]);
      assert forall k | 0 < k < |rest| :: key(rest[0]) >= key(rest[k]);
      [xs[0]] + rest
  }

  /** Orders `xs` newest-first under `key`, keeping every element. */
  function SortDesc<T>(xs: seq<T>, key: T -> int): (r: seq<T>)
    ensures multiset(r) == multiset(xs)
    ensures SortedDesc(r, key)
  {
    if |xs| == 0 then []
    else
      assert xs == [xs[0]] + xs[1..];
      InsertDesc(xs[0], SortDesc(xs[1..], key), key)
  }

  /** Sorting keeps the length, and an element is in the result exactly
      when it is in the input. */
  lemma SortDescKeepsElements<T>(xs: seq<T>, key: T -> int)
    ensures |SortDesc(xs, key)| == |xs|
    ensures forall x :: x in SortDesc(xs, key) <==> x in xs
  {
    var r := SortDesc(xs, key);
    assert |r| == |multiset(r)| == |multiset(xs)| == |xs|;
    forall x
      ensures x in r <==> x in xs
    {
      assert x in r <==> x in multiset(r);
      assert x in xs <==> x in multiset(xs);
    }
  }

  /** The views of `xs`, in order: a per-record `map`. */
  function Views<T, V>(xs: seq<T>, view: T -> V): seq<V> {
    seq(|xs|, k requires 0 <= k < |xs| => view(xs[k]))
  }

  lemma ViewsConcat<T, V>(a: seq<T>, b: seq<T>, view: T -> V)
    ensures Views(a + b, view) == Views(a, view) + Views(b, view)
  {
  }

  /** Inserting a record adds exactly its view to the multiset of views. */
  lemma {:induction false} InsertDescViews<T, V>(x: T, xs: seq<T>, key: T -> int, view: T -> V)
    requires SortedDesc(xs, key)
    ensures multiset(Views(InsertDesc(x, xs, key), view)) == multiset(Views(xs, view)) + multiset{view(x)}
  {
    if |xs| == 0 {
    } else if key(x) >= key(xs[0]) {
      ViewsConcat([x], xs, view);
    } else {
      var rest := InsertDesc(x, xs[1..], key);
      assert xs == [xs[0]] + xs[1..];
      ViewsConcat([xs[0]], rest, view);
      ViewsConcat([xs[0]], xs[1..], view);
      InsertDescViews(x, xs[1..], key, view);
    }
  }

  /** Sorting permutes the views as it permutes the records. */
  lemma {:induction false} SortDescViews<T, V>(xs: seq<T>, key: T -> int, view: T -> V)
    ensures multiset(Views(SortDesc(xs, key), view)) == multiset(Views(xs, view))
  {
    if |xs| > 0 {
      var rest := SortDesc(xs[1..], key);
      assert xs == [xs[0]] + xs[1..];
      calc {
        multiset(Views(SortDesc(xs, key), view));
        multiset(Views(InsertDesc(xs[0], rest, key), view));
        { InsertDescViews(xs[0], rest, key, view); }
        multiset(Views(rest, view)) + multiset{view(xs[0])};
        { SortDescViews(xs[1..], key, view); }
        multiset(Views(xs[1..], view)) + multiset{view(xs[0])};
        { ViewsConcat([xs[0]], xs[1..], view); }
        multiset(Views(xs, view));
      }
    }
  }

  /** `vs` shows the records `xs` newest-first, each record exactly as many
      times as it is stored, each through `view`; `stamp` reads the
      timestamp back from a view. */
  predicate ListsNewestFirst<T, V(==)>(xs: seq<T>, vs: seq<V>, view: T -> V, stamp: V -> int) {
    && |vs| == |xs|
    && (forall i, j | 0 <= i < j < |vs| :: stamp(vs[i]) >= stamp(vs[j]))
    && multiset(vs) == multiset(Views(xs, view))
  }

  /** Every record of `xs` is shown somewhere in `vs`. */
  lemma ListedIsShown<T, V>(xs: seq<T>, vs: seq<V>, view: T -> V, stamp: V -> int, x: T)
    requires ListsNewestFirst(xs, vs, view, stamp)
    requires x in xs
    ensures view(x) in vs
  {
    var k :| 0 <= k < |xs| && xs[k] == x;
    assert Views(xs, view)[k] == view(x);
    assert view(x) in multiset(Views(xs, view));
  }

  /** Every view in `vs` is the view of some record of `xs`. */
  lemma ShownIsListed<T, V>(xs: seq<T>, vs: seq<V>, view: T -> V, stamp: V -> int, v: V)
    requires ListsNewestFirst(xs, vs, view, stamp)
    requires v in vs
    ensures exists x | x in xs :: v == view(x)
  {
    assert v in multiset(Views(xs, view));
    var k :| 0 <= k < |xs| && Views(xs, view)[k] == v;
    assert xs[k] in xs;
  }

  /** `find(...).sort({ timestamp: -1 })` followed by a per-record `map`. */
  function NewestFirst<T, V(==)>(xs: seq<T>, key: T -> int, view: T -> V, stamp: V -> int): (vs: seq<V>)
    requires forall x | x in xs :: stamp(view(x)) == key(x)
    ensures ListsNewestFirst(xs, vs, view, stamp)
  {
    var sorted := SortDesc(xs, key);
    var vs := Views(sorted, view);
    NewestFirstFacts(xs, key, sorted, vs, view, stamp);
    vs
  }

  lemma NewestFirstFacts<T, V>(xs: seq<T>, key: T -> int, sorted: seq<T>, vs: seq<V>, view: T -> V, stamp: V -> int)
    requires forall x | x in xs :: stamp(view(x)) == key(x)
    requires sorted == SortDesc(xs, key)
    requires vs == Views(sorted, view)
    ensures ListsNewestFirst(xs, vs, view, stamp)
  {
    SortDescKeepsElements(xs, key);
    SortDescViews(xs, key, view);
    forall i, j | 0 <= i < j < |vs|
      ensures stamp(vs[i]) >= stamp(vs[j])
    {
      assert key(sorted[i]) >= key(sorted[j]);
      assert sorted[i] in xs && sorted[j] in xs;
      assert stamp(vs[i]) == key(sorted[i]);
      assert stamp(vs[j]) == key(sorted[j]);
    }
  }
}
