/** Sums by key, and what they add up to. */
module GroupBy {
  /** Distinct elements. */
  predicate Distinct<K(==)>(ks: seq<K>) { forall i, j | 0 <= i < j < |ks| :: ks[i] != ks[j] }

  /** What the rows with key `k` add up to. */
  function GroupSum<R, K(==)>(rs: seq<R>, key: R -> K, m: R -> real, k: K): real {
    if rs == [] then 0.0 else
      var r := rs[|rs| - 1];
      GroupSum(rs[..|rs| - 1], key, m, k) + if key(r) == k then m(r) else 0.0
  }

  /** What the rows whose key satisfies `p` add up to. */
  function SumWhere<R, K>(rs: seq<R>, key: R -> K, m: R -> real, p: K -> bool): real {
    if rs == [] then 0.0 else
      var r := rs[|rs| - 1];
      SumWhere(rs[..|rs| - 1], key, m, p) + if p(key(r)) then m(r) else 0.0
  }

  /** Add up the groups whose key satisfies `p`. */
  function GroupsWhere<R, K(==)>(ks: seq<K>, rs: seq<R>, key: R -> K, m: R -> real, p: K -> bool): real {
    if ks == [] then 0.0 else
      var k := ks[|ks| - 1];
      GroupsWhere(ks[..|ks| - 1], rs, key, m, p) + if p(k) then GroupSum(rs, key, m, k) else 0.0
  }

  predicate HasKey<R, K(==)>(rs: seq<R>, key: R -> K, k: K) { exists i | 0 <= i < |rs| :: key(rs[i]) == k }

  lemma NextHasKeyAt<R, K>(rows: seq<R>, i: nat, key: R -> K, k: K)
    requires i < |rows|
    ensures HasKey(rows[..i + 1], key, k) <==> HasKey(rows[..i], key, k) || key(rows[i]) == k
  {
    if HasKey(rows[..i], key, k) {
      var j :| 0 <= j < i && key(rows[..i][j]) == k;
      assert key(rows[..i + 1][j]) == k;
    }
    assert key(rows[..i + 1][i]) == key(rows[i]);
  }

  lemma {:induction false} NoRowsNoGroups<R, K>(ks: seq<K>, key: R -> K, m: R -> real, p: K -> bool)
    ensures GroupsWhere(ks, [], key, m, p) == 0.0
  {
    if ks != [] {
      NoRowsNoGroups(ks[..|ks| - 1], key, m, p);
    }
  }

  /** One more row adds to one group only. */
  lemma {:induction false} OneMoreRow<R, K>(ks: seq<K>, rs: seq<R>, r: R, key: R -> K, m: R -> real, p: K -> bool)
    requires Distinct(ks)
    ensures GroupsWhere(ks, rs + [r], key, m, p) ==
      GroupsWhere(ks, rs, key, m, p) + if key(r) in ks && p(key(r)) then m(r) else 0.0
    decreases |ks|
  {
    if ks != [] {
      var k, rest := ks[|ks| - 1], ks[..|ks| - 1];
      OneMoreRow(rest, rs, r, key, m, p);
      assert ks == rest + [k] && k !in rest;
      assert (rs + [r])[..|rs|] == rs;
    }
  }

  /** The groups of a partition add up to the rows. */
  lemma {:induction false} GroupsAddUp<R, K>(ks: seq<K>, rs: seq<R>, key: R -> K, m: R -> real, p: K -> bool)
    requires Distinct(ks) && forall i | 0 <= i < |rs| :: p(key(rs[i])) ==> key(rs[i]) in ks
    ensures GroupsWhere(ks, rs, key, m, p) == SumWhere(rs, key, m, p)
    decreases |rs|
  {
    if rs == [] {
      NoRowsNoGroups(ks, key, m, p);
    } else {
      var r, rest := rs[|rs| - 1], rs[..|rs| - 1];
      GroupsAddUp(ks, rest, key, m, p);
      OneMoreRow(ks, rest, r, key, m, p);
      assert rest + [r] == rs;
    }
  }

  /** Grouping by `key` and selecting by a coarser key is grouping by the coarser key. */
  lemma {:induction false} CoarserKey<R, K,
    L>(rs: seq<R>, key: R -> K, coarse: R -> L, m: R -> real, p: K -> bool, l: L)
    requires forall i | 0 <= i < |rs| :: p(key(rs[i])) <==> coarse(rs[i]) == l
    ensures SumWhere(rs, key, m, p) == GroupSum(rs, coarse, m, l)
  {
    if rs != [] {
      CoarserKey(rs[..|rs| - 1], key, coarse, m, p, l);
    }
  }

  /** What all rows add up to. */
  function Sum<R>(rs: seq<R>, m: R -> real): real {
    if rs == [] then 0.0 else Sum(rs[..|rs| - 1], m) + m(rs[|rs| - 1])
  }

  lemma {:induction false} AllRows<R, K>(rs: seq<R>, key: R -> K, m: R -> real)
    ensures SumWhere(rs, key, m, (k: K) => true) == Sum(rs, m)
  {
    if rs != [] {
      AllRows(rs[..|rs| - 1], key, m);
    }
  }

  /** What the rows that satisfy `p` add up to, amount by amount. */
  function SumIf<R>(rs: seq<R>, p: R -> bool, m: R -> real): real {
    if rs == [] then 0.0 else
      SumIf(rs[..|rs| - 1], p, m) + if p(rs[|rs| - 1]) then m(rs[|rs| - 1]) else 0.0
  }

  /** A group adds up the rows that have its key, whatever way both are told. */
  lemma {:induction false} GroupIsSumIf<R, K>(rs: seq<R>, key: R -> K, m: R -> real, k: K, p: R -> bool, n: R -> real)
    requires forall i | 0 <= i < |rs| :: (key(rs[i]) == k <==> p(rs[i])) && m(rs[i]) == n(rs[i])
    ensures GroupSum(rs, key, m, k) == SumIf(rs, p, n)
  {
    if rs != [] {
      GroupIsSumIf(rs[..|rs| - 1], key, m, k, p, n);
    }
  }
}
