/** Strict total orders, and the sort of the language's arrays as an insertion sort. */
module Orders {

  /** `less` is a strict total order on `K`. */
  ghost predicate StrictTotalOrder<K(!new)>(less: (K, K) -> bool)
  {
    && (forall a :: !less(a, a))
    && (forall a, b, c :: less(a, b) && less(b, c) ==> less(a, c))
    && (forall a, b :: less(a, b) || a == b || less(b, a))
  }

  /** `xs` is strictly ascending by `key`. */
  ghost predicate Ascending<T, K>(xs: seq<T>, key: T -> K, less: (K, K) -> bool)
  {
    forall i, j :: 0 <= i < j < |xs| ==> less(key(xs[i]), key(xs[j]))
  }

  /** `xs` is ascending by `key`, equal keys allowed. */
  ghost predicate NonDescending<T, K>(xs: seq<T>, key: T -> K, less: (K, K) -> bool)
  {
    forall i, j :: 0 <= i < j < |xs| ==> !less(key(xs[j]), key(xs[i]))
  }

  /** Puts `x` behind every element of `xs` whose key is not greater. */
  function Insert<T, K>(x: T, xs: seq<T>, key: T -> K, less: (K, K) -> bool): (r: seq<T>)
    ensures multiset(r) == multiset(xs) + multiset{x}
  {
    if xs == [] || less(key(x), key(xs[0])) then [x] + xs
    else
      assert xs == [xs[0]] + xs[1..];
      [xs[0]] + Insert(x, xs[1..], key, less)
  }

  function Sort<T, K>(xs: seq<T>, key: T -> K, less: (K, K) -> bool): (r: seq<T>)
    ensures multiset(r) == multiset(xs)
  {
    if xs == [] then []
    else
      assert xs == xs[..|xs| - 1] + [xs[|xs| - 1]];
      Insert(xs[|xs| - 1], Sort(xs[..|xs| - 1], key, less), key, less)
  }

  lemma {:induction false} InsertKeepsOrder<T, K(!new)>(x: T, xs: seq<T>, key: T -> K, less: (K, K) -> bool)
    requires StrictTotalOrder(less) && NonDescending(xs, key, less)
    ensures NonDescending(Insert(x, xs, key, less), key, less)
  {
    if xs != [] && !less(key(x), key(xs[0])) {
      var rest := Insert(x, xs[1..], key, less);
      InsertKeepsOrder(x, xs[1..], key, less);
      forall y | y in rest ensures !less(key(y), key(xs[0])) {
        assert y in multiset(rest);
        assert y == x || y in xs[1..];
      }
    }
  }

  lemma {:induction false} SortSorts<T, K(!new)>(xs: seq<T>, key: T -> K, less: (K, K) -> bool)
    requires StrictTotalOrder(less)
    ensures NonDescending(Sort(xs, key, less), key, less)
    ensures forall x :: x in Sort(xs, key, less) <==> x in xs
    ensures |Sort(xs, key, less)| == |xs|
  {
    if xs != [] {
      SortSorts(xs[..|xs| - 1], key, less);
      InsertKeepsOrder(xs[|xs| - 1], Sort(xs[..|xs| - 1], key, less), key, less);
    }
    var r := Sort(xs, key, less);
    assert |multiset(r)| == |multiset(xs)|;
    forall x ensures x in r <==> x in xs {
      assert x in r <==> x in multiset(r);
      assert x in xs <==> x in multiset(xs);
    }
  }

  /** A strictly ascending sequence is determined by the set of its elements. */
  lemma {:induction false} AscendingUnique<T, K(!new)>(xs: seq<T>, ys: seq<T>, key: T -> K, less: (K, K) -> bool)
    requires StrictTotalOrder(less)
    requires Ascending(xs, key, less) && Ascending(ys, key, less)
    requires forall x :: x in xs <==> x in ys
    ensures xs == ys
  {
    if xs != [] && ys != [] {
      FirstIsLeast(xs, ys[0], key, less);
      FirstIsLeast(ys, xs[0], key, less);
      assert xs[0] in ys && ys[0] in xs;
      forall x ensures x in xs[1..] <==> x in ys[1..] {
        TailMembers(xs, x, key, less);
        TailMembers(ys, x, key, less);
      }
      AscendingUnique(xs[1..], ys[1..], key, less);
      assert xs == [xs[0]] + xs[1..] && ys == [ys[0]] + ys[1..];
    } else {
      HasMember(xs);
      HasMember(ys);
    }
  }

  lemma HasMember<T>(xs: seq<T>)
    ensures xs != [] ==> exists x :: x in xs
  {
    if xs != [] { assert xs[0] in xs; }
  }

  lemma FirstIsLeast<T, K(!new)>(xs: seq<T>, x: T, key: T -> K, less: (K, K) -> bool)
    requires StrictTotalOrder(less) && Ascending(xs, key, less) && xs != []
    ensures x in xs && x != xs[0] ==> less(key(xs[0]), key(x)) && !less(key(x), key(xs[0]))
  {
  }

  lemma TailMembers<T, K(!new)>(xs: seq<T>, x: T, key: T -> K, less: (K, K) -> bool)
    requires StrictTotalOrder(less) && Ascending(xs, key, less) && xs != []
    ensures x in xs[1..] <==> x in xs && x != xs[0]
  {
    if x in xs[1..] {
      var i :| 0 <= i < |xs| - 1 && xs[1..][i] == x;
      assert xs[i + 1] == x && less(key(xs[0]), key(xs[i + 1]));
    }
    if x in xs && x != xs[0] {
      var i :| 0 <= i < |xs| && xs[i] == x;
      assert xs[1..][i - 1] == x;
    }
  }
}
