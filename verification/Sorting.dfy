/** Sorting by a total preorder: the result is the one ordered arrangement of the same elements. */
module Sorting {
  import opened Common

  ghost predicate Preorder<T(!new)>(leq: (T, T) -> bool) {
    && (forall x, y :: leq(x, y) || leq(y, x))
    && (forall x, y, z :: leq(x, y) && leq(y, z) ==> leq(x, z))
  }

  /** No two different elements of `xs` tie. */
  ghost predicate Separates<T>(leq: (T, T) -> bool, xs: seq<T>) {
    forall i, j | 0 <= i < |xs| && 0 <= j < |xs| && leq(xs[i], xs[j]) && leq(xs[j], xs[i]) :: xs[i] == xs[j]
  }

  ghost predicate TotalOrder<T(!new)>(leq: (T, T) -> bool) {
    Preorder(leq) && forall x, y :: leq(x, y) && leq(y, x) ==> x == y
  }

  ghost predicate Sorted<T>(xs: seq<T>, leq: (T, T) -> bool) {
    forall i, j | 0 <= i < j < |xs| :: leq(xs[i], xs[j])
  }

  function Insert<T>(x: T, xs: seq<T>, leq: (T, T) -> bool): seq<T> {
    if xs == [] || leq(x, xs[0]) then [x] + xs
    else [xs[0]] + Insert(x, xs[1..], leq)
  }

  function Sort<T>(xs: seq<T>, leq: (T, T) -> bool): seq<T> {
    if xs == [] then [] else Insert(xs[0], Sort(xs[1..], leq), leq)
  }

  lemma PrependIsSorted<T(!new)>(x: T, xs: seq<T>, leq: (T, T) -> bool)
    requires Sorted(xs, leq) && forall y | y in xs :: leq(x, y)
    ensures Sorted([x] + xs, leq)
  {
  }

  lemma {:induction false} InsertAdds<T>(x: T, xs: seq<T>, leq: (T, T) -> bool)
    ensures multiset(Insert(x, xs, leq)) == multiset(xs) + multiset{x}
  {
    if xs != [] && !leq(x, xs[0]) {
      InsertAdds(x, xs[1..], leq);
      assert xs == [xs[0]] + xs[1..];
    }
  }

  lemma {:induction false} InsertIsSorted<T(!new)>(x: T, xs: seq<T>, leq: (T, T) -> bool)
    requires Preorder(leq) && Sorted(xs, leq)
    ensures Sorted(Insert(x, xs, leq), leq)
  {
    if xs != [] {
      assert leq(xs[0], xs[0]);
      if leq(x, xs[0]) {
        PrependIsSorted(x, xs, leq);
      } else {
        InsertIsSorted(x, xs[1..], leq);
        var rest := Insert(x, xs[1..], leq);
        InsertAdds(x, xs[1..], leq);
        forall y | y in rest ensures leq(xs[0], y) {
          assert y in multiset(rest);
        }
        PrependIsSorted(xs[0], rest, leq);
      }
    }
  }

  /** Sorting arranges the same elements in order. */
  lemma {:induction false} SortArranges<T(!new)>(xs: seq<T>, leq: (T, T) -> bool)
    requires Preorder(leq)
    ensures Sorted(Sort(xs, leq), leq) && multiset(Sort(xs, leq)) == multiset(xs)
  {
    if xs != [] {
      SortArranges(xs[1..], leq);
      InsertIsSorted(xs[0], Sort(xs[1..], leq), leq);
      InsertAdds(xs[0], Sort(xs[1..], leq), leq);
      assert xs == [xs[0]] + xs[1..];
    }
  }

  lemma SameElements<T>(xs: seq<T>, ys: seq<T>)
    requires multiset(xs) == multiset(ys)
    ensures |xs| == |ys| && forall x :: x in xs <==> x in ys
  {
    assert |multiset(xs)| == |xs| && |multiset(ys)| == |ys|;
    forall x ensures x in xs <==> x in ys {
      assert x in xs <==> x in multiset(xs);
      assert x in ys <==> x in multiset(ys);
    }
  }

  lemma SameHeads<T(!new)>(xs: seq<T>, ys: seq<T>, leq: (T, T) -> bool)
    requires Preorder(leq) && Separates(leq, xs) && Sorted(xs, leq) && Sorted(ys, leq)
    requires xs != [] && ys != [] && xs[0] in ys && ys[0] in xs
    ensures xs[0] == ys[0]
  {
    assert leq(xs[0], xs[0]);
    var i :| 0 <= i < |xs| && xs[i] == ys[0];
    var j :| 0 <= j < |ys| && ys[j] == xs[0];
    assert leq(xs[0], xs[i]) && leq(ys[0], ys[j]);
  }

  /** There is only one ordered arrangement of given elements. */
  lemma {:induction false} SortedIsUnique<T(!new)>(xs: seq<T>, ys: seq<T>, leq: (T, T) -> bool)
    requires Preorder(leq) && Separates(leq, xs) && Sorted(xs, leq) && Sorted(ys, leq) && multiset(xs) == multiset(ys)
    ensures xs == ys
  {
    SameElements(xs, ys);
    if xs != [] {
      SameHeads(xs, ys, leq);
      SameWithout(xs, 0, ys, 0);
      assert Without(xs, 0) == xs[1..] && Without(ys, 0) == ys[1..];
      SortedIsUnique(xs[1..], ys[1..], leq);
    }
  }

  lemma SeparatesSame<T(!new)>(xs: seq<T>, ys: seq<T>, leq: (T, T) -> bool)
    requires Separates(leq, xs) && multiset(xs) == multiset(ys)
    ensures Separates(leq, ys)
  {
    SameElements(xs, ys);
    forall i, j | 0 <= i < |ys| && 0 <= j < |ys| && leq(ys[i], ys[j]) && leq(ys[j], ys[i]) ensures ys[i] == ys[j] {
      assert ys[i] in xs && ys[j] in xs;
    }
  }

  /** Two lists without ties sort alike exactly when they hold the same elements. */
  lemma SortForgetsOrderOnly<T(!new)>(xs: seq<T>, ys: seq<T>, leq: (T, T) -> bool)
    requires Preorder(leq) && Separates(leq, xs)
    ensures Sort(xs, leq) == Sort(ys, leq) <==> multiset(xs) == multiset(ys)
  {
    SortArranges(xs, leq);
    SortArranges(ys, leq);
    if multiset(xs) == multiset(ys) {
      SeparatesSame(xs, Sort(xs, leq), leq);
      SortedIsUnique(Sort(xs, leq), Sort(ys, leq), leq);
    }
  }

  lemma FilterStartsLater<T(!new)>(x: T, ys: seq<T>, leq: (T, T) -> bool, keep: T -> bool)
    requires Preorder(leq) && Sorted(ys, leq) && ys != [] && leq(x, ys[0])
    ensures Insert(x, Filter(ys, keep), leq) == [x] + Filter(ys, keep)
  {
    var kept := Filter(ys, keep);
    if kept != [] {
      FilterMember(ys, keep, kept[0]);
      var i :| 0 <= i < |ys| && ys[i] == kept[0];
      assert leq(ys[0], ys[0]);
      assert leq(ys[0], ys[i]);
    }
  }

  lemma InsertPast<T>(x: T, y: T, ys: seq<T>, leq: (T, T) -> bool)
    requires !leq(x, y)
    ensures Insert(x, [y] + ys, leq) == [y] + Insert(x, ys, leq)
  {
    assert ([y] + ys)[1..] == ys;
  }

  lemma {:induction false} FilterOfInsert<T(!new)>(x: T, ys: seq<T>, leq: (T, T) -> bool, keep: T -> bool)
    requires Preorder(leq) && Sorted(ys, leq)
    ensures Filter(Insert(x, ys, leq), keep) == if keep(x) then Insert(x, Filter(ys, keep), leq) else Filter(ys, keep)
  {
    if ys == [] || leq(x, ys[0]) {
      FilterHead(x, ys, keep);
      if ys != [] {
        FilterStartsLater(x, ys, leq, keep);
      }
    } else {
      hide Insert, Filter;
      var y, rest := ys[0], ys[1..];
      assert ys == [y] + rest;
      FilterOfInsert(x, rest, leq, keep);
      InsertPast(x, y, rest, leq);
      FilterHead(y, rest, keep);
      FilterHead(y, Insert(x, rest, leq), keep);
      InsertPast(x, y, Filter(rest, keep), leq);
    }
  }

  lemma SortHead<T>(x: T, xs: seq<T>, leq: (T, T) -> bool)
    ensures Sort([x] + xs, leq) == Insert(x, Sort(xs, leq), leq)
  {
    assert ([x] + xs)[1..] == xs;
  }

  /** Choosing elements and sorting them can be done in either order. */
  lemma {:induction false} FilterOfSort<T(!new)>(xs: seq<T>, leq: (T, T) -> bool, keep: T -> bool)
    requires Preorder(leq)
    ensures Filter(Sort(xs, leq), keep) == Sort(Filter(xs, keep), leq)
  {
    if xs != [] {
      var x, rest := xs[0], xs[1..];
      assert xs == [x] + rest;
      FilterOfSort(rest, leq, keep);
      SortArranges(rest, leq);
      FilterOfInsert(x, Sort(rest, leq), leq, keep);
      FilterHead(x, rest, keep);
      SortHead(x, rest, leq);
      SortHead(x, Filter(rest, keep), leq);
    }
  }
}
