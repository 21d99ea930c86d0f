/** Small vocabulary shared by every model: optional values, outcomes and two list helpers. */
module Common {

  datatype Option<+T> = None | Some(value: T)

  datatype Result<+T, +E> = Success(value: T) | Failure(error: E)

  /** The elements that satisfy `keep`, in their original order. */
  function Filter<T>(xs: seq<T>, keep: T -> bool): seq<T> {
    if xs == [] then [] else (if keep(xs[0]) then [xs[0]] else []) + Filter(xs[1..], keep)
  }

  lemma Associate<T>(xs: seq<T>, ys: seq<T>, zs: seq<T>)
    ensures xs + ys + zs == xs + (ys + zs)
  {
  }

  lemma FilterHead<T>(x: T, xs: seq<T>, keep: T -> bool)
    ensures Filter([x] + xs, keep) == (if keep(x) then [x] + Filter(xs, keep) else Filter(xs, keep))
  {
    assert ([x] + xs)[1..] == xs;
    assert [] + Filter(xs, keep) == Filter(xs, keep);
  }

  lemma {:induction false} FilterMember<T>(xs: seq<T>, keep: T -> bool, y: T)
    ensures y in Filter(xs, keep) <==> y in xs && keep(y)
  {
    if xs != [] {
      FilterMember(xs[1..], keep, y);
      assert xs == [xs[0]] + xs[1..];
    }
  }

  lemma {:induction false} FilterConcat<T>(xs: seq<T>, ys: seq<T>, keep: T -> bool)
    ensures Filter(xs + ys, keep) == Filter(xs, keep) + Filter(ys, keep)
  {
    if xs == [] {
      assert xs + ys == ys;
    } else {
      hide Filter;
      var x, rest := xs[0], xs[1..];
      assert xs == [x] + rest;
      Associate([x], rest, ys);
      FilterConcat(rest, ys, keep);
      FilterHead(x, rest, keep);
      FilterHead(x, rest + ys, keep);
      Associate([x], Filter(rest, keep), Filter(ys, keep));
    }
  }

  lemma {:induction false} FilterNothing<T>(xs: seq<T>, keep: T -> bool)
    requires forall x | x in xs :: !keep(x)
    ensures Filter(xs, keep) == []
  {
    if xs != [] {
      assert xs[0] in xs;
      FilterNothing(xs[1..], keep);
    }
  }

  lemma {:induction false} FilterEverything<T>(xs: seq<T>, keep: T -> bool)
    requires forall x | x in xs :: keep(x)
    ensures Filter(xs, keep) == xs
  {
    if xs != [] {
      assert xs[0] in xs;
      FilterEverything(xs[1..], keep);
      assert xs == [xs[0]] + xs[1..];
    }
  }

  /** Elements that are not kept may be cut out anywhere without changing what is kept. */
  lemma FilterSplice<T>(front: seq<T>, cut: seq<T>, back: seq<T>, keep: T -> bool)
    requires forall x | x in cut :: !keep(x)
    ensures Filter(front + cut + back, keep) == Filter(front + back, keep)
  {
    FilterNothing(cut, keep);
    FilterConcat(front + cut, back, keep);
    FilterConcat(front, cut, keep);
    FilterConcat(front, back, keep);
  }

  lemma FilterShorter<T>(xs: seq<T>, keep: T -> bool)
    ensures |Filter(xs, keep)| <= |xs|
  {
  }

  // ---------------------------------------------------------------- sums over lists

  function Total<T>(xs: seq<T>, weight: T -> int): int {
    if xs == [] then 0 else weight(xs[0]) + Total(xs[1..], weight)
  }

  lemma {:induction false} TotalConcat<T>(xs: seq<T>, ys: seq<T>, weight: T -> int)
    ensures Total(xs + ys, weight) == Total(xs, weight) + Total(ys, weight)
  {
    if xs == [] {
      assert xs + ys == ys;
    } else {
      TotalConcat(xs[1..], ys, weight);
      assert (xs + ys)[1..] == xs[1..] + ys && (xs + ys)[0] == xs[0];
    }
  }

  function Without<T>(xs: seq<T>, i: nat): seq<T>
    requires i < |xs|
  {
    xs[..i] + xs[i + 1..]
  }

  lemma WithoutOne<T>(xs: seq<T>, i: nat)
    requires i < |xs|
    ensures multiset(xs) == multiset(Without(xs, i)) + multiset{xs[i]}
  {
    assert xs == xs[..i] + ([xs[i]] + xs[i + 1..]);
  }

  /** Taking the same element off both ends of an equation between multisets. */
  lemma SameWithout<T>(xs: seq<T>, i: nat, ys: seq<T>, j: nat)
    requires i < |xs| && j < |ys| && xs[i] == ys[j] && multiset(xs) == multiset(ys)
    ensures multiset(Without(xs, i)) == multiset(Without(ys, j))
  {
    WithoutOne(xs, i);
    WithoutOne(ys, j);
    assert multiset(Without(xs, i)) == multiset(xs) - multiset{xs[i]};
    assert multiset(Without(ys, j)) == multiset(ys) - multiset{ys[j]};
  }

  lemma TotalWithout<T>(xs: seq<T>, i: nat, weight: T -> int)
    requires i < |xs|
    ensures Total(xs, weight) == weight(xs[i]) + Total(Without(xs, i), weight)
  {
    var front, back := xs[..i], xs[i..];
    assert xs == front + back && back[0] == xs[i] && back[1..] == xs[i + 1..];
    TotalConcat(front, back, weight);
    TotalConcat(front, back[1..], weight);
  }

  /** A sum does not depend on the order of its terms. */
  lemma {:induction false} TotalPermutes<T>(xs: seq<T>, ys: seq<T>, weight: T -> int)
    requires multiset(xs) == multiset(ys)
    ensures Total(xs, weight) == Total(ys, weight)
  {
    if xs == [] {
      assert |multiset(ys)| == 0;
    } else {
      assert Without(xs, 0) == xs[1..];
      assert xs[0] in multiset(ys);
      var i :| 0 <= i < |ys| && ys[i] == xs[0];
      SameWithout(xs, 0, ys, i);
      TotalWithout(ys, i, weight);
      TotalPermutes(xs[1..], Without(ys, i), weight);
    }
  }

  lemma {:induction false} TotalAgrees<T>(xs: seq<T>, f: T -> int, g: T -> int)
    requires forall x | x in xs :: f(x) == g(x)
    ensures Total(xs, f) == Total(xs, g)
  {
    if xs != [] {
      assert xs[0] in xs;
      TotalAgrees(xs[1..], f, g);
    }
  }

  lemma {:induction false} TotalPlus<T>(xs: seq<T>, f: T -> int, g: T -> int, sum: T -> int)
    requires forall x | x in xs :: sum(x) == f(x) + g(x)
    ensures Total(xs, sum) == Total(xs, f) + Total(xs, g)
  {
    if xs != [] {
      assert xs[0] in xs;
      TotalPlus(xs[1..], f, g, sum);
    }
  }

  function Map<T, U>(xs: seq<T>, f: T -> U): (ys: seq<U>)
    ensures |ys| == |xs| && forall i | 0 <= i < |xs| :: ys[i] == f(xs[i])
  {
    seq(|xs|, i requires 0 <= i < |xs| => f(xs[i]))
  }

  /** Mapping permuted lists gives permuted lists. */
  lemma {:induction false} MapPermutes<T, U>(xs: seq<T>, ys: seq<T>, f: T -> U)
    requires multiset(xs) == multiset(ys)
    ensures multiset(Map(xs, f)) == multiset(Map(ys, f))
  {
    if xs == [] {
      assert |multiset(ys)| == 0;
    } else {
      assert Without(xs, 0) == xs[1..];
      assert xs[0] in multiset(ys);
      var i :| 0 <= i < |ys| && ys[i] == xs[0];
      SameWithout(xs, 0, ys, i);
      MapPermutes(xs[1..], Without(ys, i), f);
      WithoutOne(Map(xs, f), 0);
      WithoutOne(Map(ys, f), i);
      assert Without(Map(xs, f), 0) == Map(xs[1..], f);
      assert Without(Map(ys, f), i) == Map(Without(ys, i), f);
    }
  }

  function Tally<T>(keep: T -> bool): T -> int {
    (x: T) => if keep(x) then 1 else 0
  }

  lemma {:induction false} FilterCounts<T>(xs: seq<T>, keep: T -> bool)
    ensures |Filter(xs, keep)| == Total(xs, Tally(keep))
  {
    if xs != [] {
      FilterCounts(xs[1..], keep);
    }
  }

  lemma {:induction false} TotalConstant<T>(xs: seq<T>, weight: T -> int, c: int)
    requires forall x | x in xs :: weight(x) == c
    ensures Total(xs, weight) == c * |xs|
  {
    if xs != [] {
      assert xs[0] in xs;
      TotalConstant(xs[1..], weight, c);
    }
  }

  /** What an element contributes to the key `k`. */
  function Share<T, K(==)>(key: T -> K, weight: T -> int, k: K): T -> int {
    (x: T) => if key(x) == k then weight(x) else 0
  }

  function SharesOf<T, K(==)>(xs: seq<T>, key: T -> K, weight: T -> int): K -> int {
    (k: K) => Total(xs, Share(key, weight, k))
  }

  function ShareOfOne<T, K(==)>(x: T, key: T -> K, weight: T -> int): K -> int {
    (k: K) => Share(key, weight, k)(x)
  }

  lemma {:induction false} OneShare<T, K>(x: T, keys: seq<K>, key: T -> K, weight: T -> int)
    requires forall i, j | 0 <= i < j < |keys| :: keys[i] != keys[j]
    ensures Total(keys, ShareOfOne(x, key, weight)) == if key(x) in keys then weight(x) else 0
  {
    if keys != [] {
      OneShare(x, keys[1..], key, weight);
      assert keys == [keys[0]] + keys[1..];
      assert keys[0] !in keys[1..];
      assert ShareOfOne(x, key, weight)(keys[0]) == Share(key, weight, keys[0])(x);
    }
  }

  /** Splitting a list by a key splits its sum, if every element has one of the keys. */
  lemma {:induction false} SharesAddUp<T, K>(xs: seq<T>, keys: seq<K>, key: T -> K, weight: T -> int)
    requires forall i, j | 0 <= i < j < |keys| :: keys[i] != keys[j]
    requires forall x | x in xs :: key(x) in keys
    ensures Total(keys, SharesOf(xs, key, weight)) == Total(xs, weight)
  {
    if xs == [] {
      TotalConstant(keys, SharesOf(xs, key, weight), 0);
    } else {
      var mine := ShareOfOne(xs[0], key, weight);
      var rest := SharesOf(xs[1..], key, weight);
      assert xs[0] in xs;
      SharesAddUp(xs[1..], keys, key, weight);
      OneShare(xs[0], keys, key, weight);
      TotalPlus(keys, mine, rest, SharesOf(xs, key, weight));
    }
  }

  lemma {:induction false} TotalOfFilter<T>(xs: seq<T>, keep: T -> bool, weight: T -> int, kept: T -> int)
    requires forall x | x in xs :: kept(x) == if keep(x) then weight(x) else 0
    ensures Total(Filter(xs, keep), weight) == Total(xs, kept)
  {
    if xs != [] {
      assert xs[0] in xs;
      TotalOfFilter(xs[1..], keep, weight, kept);
      var front := if keep(xs[0]) then [xs[0]] else [];
      TotalConcat(front, Filter(xs[1..], keep), weight);
    }
  }

  lemma {:induction false} TotalOfMap<T, U>(xs: seq<T>, f: T -> U, weight: U -> int, mapped: T -> int)
    requires forall x | x in xs :: mapped(x) == weight(f(x))
    ensures Total(Map(xs, f), weight) == Total(xs, mapped)
  {
    if xs != [] {
      assert xs[0] in xs;
      assert Map(xs, f)[1..] == Map(xs[1..], f);
      TotalOfMap(xs[1..], f, weight, mapped);
    }
  }

  /** Two places of a list keep two places in any permutation of it. */
  lemma TwoPlaces<T>(xs: seq<T>, ys: seq<T>, i: nat, j: nat) returns (k: nat, l: nat)
    requires multiset(xs) == multiset(ys) && i < j < |ys|
    ensures k < |xs| && l < |xs| && k != l && xs[k] == ys[i] && xs[l] == ys[j]
  {
    assert ys[i] in multiset(xs);
    k :| 0 <= k < |xs| && xs[k] == ys[i];
    SameWithout(ys, i, xs, k);
    assert Without(ys, i)[j - 1] == ys[j];
    assert ys[j] in multiset(Without(xs, k));
    var m :| 0 <= m < |Without(xs, k)| && Without(xs, k)[m] == ys[j];
    l := if m < k then m else m + 1;
  }

  ghost predicate KeyedApart<T, K>(xs: seq<T>, key: T -> K) {
    forall i, j | 0 <= i < j < |xs| :: key(xs[i]) != key(xs[j])
  }

  /** Distinct keys stay distinct in any permutation. */
  lemma KeysStayApart<T, K>(xs: seq<T>, ys: seq<T>, key: T -> K)
    requires multiset(xs) == multiset(ys) && KeyedApart(xs, key)
    ensures KeyedApart(ys, key)
  {
    forall i, j | 0 <= i < j < |ys| ensures key(ys[i]) != key(ys[j]) {
      var k, l := TwoPlaces(xs, ys, i, j);
      assert k < l || l < k;
    }
  }

  lemma MapHead<T, U>(x: T, xs: seq<T>, f: T -> U)
    ensures Map([x] + xs, f) == [f(x)] + Map(xs, f)
  {
  }

  lemma SameHeadSameTail<T>(x: T, xs: seq<T>, y: T, ys: seq<T>)
    ensures [x] + xs == [y] + ys <==> x == y && xs == ys
  {
    assert ([x] + xs)[0] == x && ([x] + xs)[1..] == xs;
    assert ([y] + ys)[0] == y && ([y] + ys)[1..] == ys;
  }
}
