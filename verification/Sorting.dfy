/** `list.sort`: sorted, a permutation, and stable. */
module Sorting {
  import opened GroupBy

  /** A reflexive order is what a key function gives; ties are allowed. */
  ghost predicate IsOrder<T(!new)>(le: (T, T) -> bool) {
    && (forall x, y :: le(x, y) || le(y, x))
    && (forall x, y, z :: le(x, y) && le(y, z) ==> le(x, z))
  }

  predicate SortedBy<T>(le: (T, T) -> bool, xs: seq<T>) {
    forall i, j | 0 <= i < j < |xs| :: le(xs[i], xs[j])
  }

  /** Behind everything that is not greater. */
  function Insert<T>(le: (T, T) -> bool, xs: seq<T>, x: T): seq<T> {
    if xs == [] || le(xs[|xs| - 1], x) then xs + [x]
    else Insert(le, xs[..|xs| - 1], x) + [xs[|xs| - 1]]
  }

  function Sort<T>(le: (T, T) -> bool, xs: seq<T>): seq<T> {
    if xs == [] then [] else Insert(le, Sort(le, xs[..|xs| - 1]), xs[|xs| - 1])
  }

  /** The elements that tie with `x`, in their order. */
  function Ties<T>(le: (T, T) -> bool, xs: seq<T>, x: T): seq<T> {
    if xs == [] then [] else
      var y := xs[|xs| - 1];
      Ties(le, xs[..|xs| - 1], x) + if le(x, y) && le(y, x) then [y] else []
  }

  lemma {:induction false} InsertHas<T>(le: (T, T) -> bool, xs: seq<T>, x: T)
    ensures forall y :: y in Insert(le, xs, x) <==> y in xs || y == x
    ensures multiset(Insert(le, xs, x)) == multiset(xs) + multiset{x}
  {
    if xs != [] {
      InsertHas(le, xs[..|xs| - 1], x);
      assert xs == xs[..|xs| - 1] + [xs[|xs| - 1]];
    }
  }

  lemma SortedSnoc<T(!new)>(le: (T, T) -> bool, xs: seq<T>, x: T)
    requires SortedBy(le, xs) && forall y | y in xs :: le(y, x)
    ensures SortedBy(le, xs + [x])
  {
  }

  lemma {:induction false} InsertSorts<T(!new)>(le: (T, T) -> bool, xs: seq<T>, x: T)
    requires IsOrder(le) && SortedBy(le, xs)
    ensures SortedBy(le, Insert(le, xs, x))
  {
    if xs == [] || le(xs[|xs| - 1], x) {
    } else {
      var last, rest := xs[|xs| - 1], xs[..|xs| - 1];
      InsertSorts(le, rest, x);
      InsertHas(le, rest, x);
      hide SortedBy;
      SortedSnoc(le, Insert(le, rest, x), last);
    }
  }

  lemma {:induction false} TiesOfJoin<T>(le: (T, T) -> bool, xs: seq<T>, y: T, x: T)
    ensures Ties(le, xs + [y], x) == Ties(le, xs, x) + if le(x, y) && le(y, x) then [y] else []
  {
    assert (xs + [y])[..|xs|] == xs;
  }

  lemma {:induction false} InsertIsStable<T(!new)>(le: (T, T) -> bool, xs: seq<T>, x: T, k: T)
    requires IsOrder(le) && SortedBy(le, xs)
    ensures Ties(le, Insert(le, xs, x), k) == Ties(le, xs + [x], k)
  {
    TiesOfJoin(le, xs, x, k);
    if xs == [] || le(xs[|xs| - 1], x) {
    } else {
      var last, rest := xs[|xs| - 1], xs[..|xs| - 1];
      InsertIsStable(le, rest, x, k);
      TiesOfJoin(le, rest, x, k);
      TiesOfJoin(le, Insert(le, rest, x), last, k);
      var mine, its := if le(k, x) && le(x, k) then [x] else [], if le(k, last) && le(last, k) then [last] else [];
      assert mine == [] || its == [];
      assert Ties(le, rest, k) + its + mine == Ties(le, rest, k) + mine + its;
    }
  }

  lemma {:induction false} SortPermutes<T>(le: (T, T) -> bool, xs: seq<T>)
    ensures multiset(Sort(le, xs)) == multiset(xs)
  {
    if xs != [] {
      var x, rest := xs[|xs| - 1], xs[..|xs| - 1];
      SortPermutes(le, rest);
      InsertHas(le, Sort(le, rest), x);
      assert xs == rest + [x];
    }
  }

  lemma {:induction false} SortSorts<T(!new)>(le: (T, T) -> bool, xs: seq<T>)
    requires IsOrder(le)
    ensures SortedBy(le, Sort(le, xs))
  {
    hide IsOrder;
    if xs != [] {
      SortSorts(le, xs[..|xs| - 1]);
      InsertSorts(le, Sort(le, xs[..|xs| - 1]), xs[|xs| - 1]);
    }
  }

  lemma {:induction false} SortIsStable<T(!new)>(le: (T, T) -> bool, xs: seq<T>, k: T)
    requires IsOrder(le)
    ensures Ties(le, Sort(le, xs), k) == Ties(le, xs, k)
  {
    hide IsOrder;
    if xs != [] {
      var x, rest := xs[|xs| - 1], xs[..|xs| - 1];
      SortIsStable(le, rest, k);
      SortSorts(le, rest);
      hide SortedBy;
      hide Insert;
      InsertIsStable(le, Sort(le, rest), x, k);
      TiesOfJoin(le, Sort(le, rest), x, k);
    }
  }

  // ---------------------------------------------------------------- permutations

  lemma {:induction false} DistinctCountsOnce<T>(xs: seq<T>, x: T)
    requires Distinct(xs)
    ensures multiset(xs)[x] <= 1
  {
    if xs != [] {
      var rest := xs[..|xs| - 1];
      assert xs == rest + [xs[|xs| - 1]];
      DistinctCountsOnce(rest, x);
      assert xs[|xs| - 1] !in rest;
    }
  }

  lemma TwiceCountsTwice<T>(xs: seq<T>, i: nat, j: nat)
    requires i < j < |xs| && xs[i] == xs[j]
    ensures multiset(xs)[xs[i]] >= 2
  {
    assert xs == xs[..j] + xs[j..] && xs[i] in xs[..j] && xs[i] in xs[j..] by {
      assert xs[..j][i] == xs[i] && xs[j..][0] == xs[j];
    }
    assert multiset(xs) == multiset(xs[..j]) + multiset(xs[j..]);
  }

  /** A permutation of distinct elements has the same elements, each once. */
  lemma PermutationOfDistinct<T>(xs: seq<T>, ys: seq<T>)
    requires Distinct(xs) && multiset(xs) == multiset(ys)
    ensures Distinct(ys) && forall x :: x in xs <==> x in ys
  {
    forall i, j | 0 <= i < j < |ys|
      ensures ys[i] != ys[j]
    {
      DistinctCountsOnce(xs, ys[i]);
      if ys[i] == ys[j] {
        TwiceCountsTwice(ys, i, j);
      }
    }
    forall x
      ensures x in xs <==> x in ys
    {
      assert x in xs <==> x in multiset(xs);
      assert x in ys <==> x in multiset(ys);
    }
  }

  // ---------------------------------------------------------------- strings

  /** Lexicographic order by code point. */
  predicate StringLe(a: string, b: string) {
    a == "" || (b != "" && (a[0] < b[0] || (a[0] == b[0] && StringLe(a[1..], b[1..]))))
  }

  lemma {:induction false} StringOrder(a: string, b: string, c: string)
    ensures StringLe(a, b) || StringLe(b, a)
    ensures StringLe(a, b) && StringLe(b, c) ==> StringLe(a, c)
    ensures StringLe(a, b) && StringLe(b, a) ==> a == b
    decreases |a|
  {
    if a != "" && b != "" {
      StringOrder(a[1..], b[1..], if c == "" then "" else c[1..]);
      assert a == [a[0]] + a[1..] && b == [b[0]] + b[1..];
    }
  }

  /** The order is by the first character that differs, a shorter text before a longer one. */
  lemma {:induction false} StringLeIs(a: string, b: string)
    ensures StringLe(a, b) <==>
            a <= b || exists k :: 0 <= k < |a| && k < |b| && a[..k] == b[..k] && a[k] < b[k]
    decreases |a|
  {
    if a != "" && b != "" {
      StringLeIs(a[1..], b[1..]);
      if a[0] < b[0] {
        assert a[..0] == b[..0];
      }
      if a[0] == b[0] && StringLe(a[1..], b[1..]) && !(a[1..] <= b[1..]) {
        var k :| 0 <= k < |a[1..]| && k < |b[1..]| && a[1..][..k] == b[1..][..k] && a[1..][k] < b[1..][k];
        assert a[..k + 1] == [a[0]] + a[1..][..k] == [b[0]] + b[1..][..k] == b[..k + 1];
        assert a[k + 1] < b[k + 1];
      }
      if a <= b {
        assert a[1..] <= b[1..];
      }
      if k :| 0 <= k < |a| && k < |b| && a[..k] == b[..k] && a[k] < b[k] {
        if k > 0 {
          assert a[0] == a[..k][0] == b[..k][0] == b[0];
          assert a[1..][..k - 1] == a[..k][1..] == b[..k][1..] == b[1..][..k - 1];
          assert a[1..][k - 1] < b[1..][k - 1];
        }
      }
      if a[0] == b[0] && a[1..] <= b[1..] {
        assert a == [a[0]] + a[1..] && b == [b[0]] + b[1..];
      }
    }
  }
}
