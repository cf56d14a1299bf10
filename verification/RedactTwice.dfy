/** When redacting twice is the same as redacting once. */
module RedactTwice {
  import opened Options
  import opened SecretPatterns
  import opened SecretMatching
  import opened BearerSafety
  import opened MarkedSecrets
  import opened KeyValueSafety
  import opened UrlSafety
  import opened Redactor

  /** The passes have left the marker for every value and every secret. */
  ghost predicate Settled(t: Text) { Clean(KeyValueMatch, START, t) && Clean(UrlMatch, START, t) }

  predicate IsMarkAt(t: Text, n: nat) { n + 10 <= |t| && t[n..n + 10] == MARK }

  /** Where the value of a name at `i` starts. */
  function ValueAt(t: Text, i: nat): Option<nat>
    requires i <= |t|
  {
    var r := KeyValueMatch(Before(START, t, i), t[i..]);
    if r.Some? then Some(i + r.value.keep) else None
  }

  /** Where the secret of a URL credential at `j` starts. */
  function SecretAt(t: Text, j: nat): Option<nat>
    requires j <= |t|
  {
    var r := UrlMatch(Before(START, t, j), t[j..]);
    if r.Some? then Some(j + r.value.keep) else None
  }

  lemma MarkAt(t: Text, i: nat, k: nat)
    requires i <= |t| && k <= |t[i..]| && MARK <= t[i..][k..]
    ensures IsMarkAt(t, i + k)
  {
    assert t[i..][k..] == t[i + k..];
    assert t[i + k..][..10] == t[i + k..i + k + 10];
  }

  lemma ValueFacts(t: Text, i: nat, n: nat)
    requires Settled(t) && i <= |t| && ValueAt(t, i) == Some(n)
    ensures i < n && IsMarkAt(t, n) && IsLetter(t[i])
    ensures forall x | i <= x < n :: IsHeadChar(t[x])
    ensures KeyValueMatch(Before(START, t, i), t[i..]) == Some(Span(n - i, n + 9 - i, n + 9 - i))
  {
    hide KeyValueMatch;
    hide Clean;
    hide CleanAt;
    hide In;
    var prev, u := Before(START, t, i), t[i..];
    CleanEverywhere(KeyValueMatch, START, t, i);
    var ws, e, a := KeyValueMatchHas(prev, u);
    var sp := KeyValueMatch(prev, u).value;
    SpanHead(prev, u, ws, e, a, sp.keep, sp.cut);
    StopsAtBracket(prev, u);
    MarkAt(t, i, sp.keep);
    assert forall x {:trigger t[x]} | i <= x < n :: t[x] == u[x - i];
  }

  /** The marker is a value up to its last character. */
  lemma MarkerEnds(u: Text, k: nat)
    requires k <= |u| && MARK <= u[k..]
    ensures k + 10 <= |u| && u[k + 9] == ']' && All(VALUE, u, k, k + 9) && forall x | k <= x < k + 10 :: u[x] != '@'
  {
    var w := u[k..];
    assert forall x {:trigger u[x]} | k <= x < k + 10 :: u[x] == w[x - k] == MARK[x - k];
  }

  lemma StopsAtBracket(prev: char, u: Text)
    requires CleanAt(KeyValueMatch, prev, u) && KeyValueMatch(prev, u).Some?
    ensures
      var sp := KeyValueMatch(prev, u).value;
      MARK <= u[sp.keep..] && sp.cut == sp.end == sp.keep + 9
  {
    hide KeyValueMatch;
    hide In;
    var ws, e, a := KeyValueMatchHas(prev, u);
    var sp := KeyValueMatch(prev, u).value;
    MarkerEnds(u, sp.keep);
    BracketEndsValue();
    hide KeyEnd;
    assert forall x | sp.keep <= x < sp.cut :: In(VALUE, u[x]);
  }

  lemma BracketEndsValue()
    ensures !In(VALUE, ']')
  {
  }

  /** A URL credential at `j` of `t`: its scheme ends at `a`, the marker is at `k`. */
  ghost predicate IsUrl(t: Text, j: nat, a: nat, k: nat) {
    && j < a && a + 3 < k && k + 10 < |t|
    && IsLetter(t[j]) && All(SCHEME, t, j + 1, a) && SchemeEnds(t, a)
    && All(USER, t, a + 3, k - 1) && t[k - 1] == ':' && IsMarkAt(t, k) && t[k + 10] == '@'
  }

  lemma SecretFacts(t: Text, j: nat, k: nat) returns (a: nat)
    requires Settled(t) && j <= |t| && SecretAt(t, j) == Some(k)
    ensures IsUrl(t, j, a, k) && !IsWord(Before(START, t, j))
  {
    hide UrlMatch;
    hide Clean;
    hide CleanAt;
    var prev, u := Before(START, t, j), t[j..];
    CleanEverywhere(UrlMatch, START, t, j);
    var b := UrlMatchHas(prev, u);
    var sp := UrlMatch(prev, u).value;
    StopsAtAt(prev, u);
    a := j + b;
    MarkAt(t, j, sp.keep);
    assert forall x {:trigger t[x]} | j <= x < |t| :: t[x] == u[x - j];
  }

  lemma StopsAtAt(prev: char, u: Text)
    requires CleanAt(UrlMatch, prev, u) && UrlMatch(prev, u).Some?
    ensures
      var sp := UrlMatch(prev, u).value;
      MARK <= u[sp.keep..] && sp.cut == sp.keep + 10
  {
    hide UrlMatch;
    var _ := UrlMatchHas(prev, u);
    MarkerEnds(u, UrlMatch(prev, u).value.keep);
  }

  lemma MarkChars(t: Text, n: nat)
    requires IsMarkAt(t, n)
    ensures t[n] == '[' && t[n + 9] == ']' && (forall x | n < x < n + 9 :: 'A' <= t[x] <= 'Z')
  {
    assert forall x {:trigger t[x]} | n <= x < n + 10 :: t[x] == t[n..n + 10][x - n] == MARK[x - n];
  }

  /** No other credential starts inside a credential but in its scheme, and that one has the same
      secret. */
  lemma OneSecret(t: Text, p: nat, a: nat, k: nat, j: nat, b: nat, m: nat)
    requires IsUrl(t, p, a, k) && IsUrl(t, j, b, m) && p <= j < k + 11
    ensures m == k
  {
    MarkChars(t, k);
    assert forall x | j < x < b :: In(SCHEME, t[x]);
    assert !In(SCHEME, t[a]) && !In(SCHEME, t[k - 1]) && !In(SCHEME, t[k + 9]);
    assert j < a ==> b == a;
    assert forall x | b + 3 <= x < m - 1 :: In(USER, t[x]);
  }

  /** In front of a value there is nothing a credential could start with. */
  lemma NoUrlBeforeValue(t: Text, i: nat, n: nat, j: nat, b: nat, m: nat)
    requires IsMarkAt(t, n) && (forall x | i <= x < n :: IsHeadChar(t[x]))
    requires i <= j < n + 10
    ensures !IsUrl(t, j, b, m)
  {
    MarkChars(t, n);
  }

  // ---------------------------------------------------------------- what the second pass adds

  /** `v` is `t` with some of its `]` doubled. */
  predicate Doubled(t: Text, v: Text)
    decreases |t|
  {
    if t == "" then v == "" else
      && v != "" && v[0] == t[0]
      && (Doubled(t[1..], v[1..]) || (t[0] == ']' && |v| > 1 && v[1] == ']' && Doubled(t[1..], v[2..])))
  }

  /** What the second pass makes of `t` from `p` on. */
  function Second(t: Text, p: nat): Text
    requires p <= |t|
  {
    Sub(KeyValueMatch, Before(START, t, p), t[p..])
  }

  lemma SecondCopies(t: Text, p: nat)
    requires p < |t| && ValueAt(t, p).None?
    ensures Second(t, p) == [t[p]] + Second(t, p + 1)
  {
    hide KeyValueMatch;
    assert t[p..][1..] == t[p + 1..];
  }

  lemma SecondDoubles(t: Text, p: nat, n: nat)
    requires Settled(t) && p <= |t| && ValueAt(t, p) == Some(n)
    ensures n + 10 <= |t| && Second(t, p) == t[p..n + 10] + ("]" + Second(t, n + 10))
  {
    hide Sub;
    hide KeyValueMatch;
    hide Settled;
    var prev, u := Before(START, t, p), t[p..];
    ValueFacts(t, p, n);
    MarkChars(t, n);
    KeyValuePassForm(prev, u);
    var e := n + 9;
    assert u[e - p..] == t[e..] && u[e - p - 1] == t[e - 1];
    NotALetter(t[e - 1], t[e..]);
    SecondCopies(t, e);
    assert t[p..n + 10] == u[..n - p] + MARK;
    Join(u[..n - p], MARK, "]" + Second(t, n + 10));
  }

  lemma {:induction false} DoubledPrefix(x: Text, w: Text, v: Text)
    requires Doubled(w, v)
    ensures Doubled(x + w, x + v)
  {
    if x == "" {
      assert x + w == w && x + v == v;
    } else {
      DoubledPrefix(x[1..], w, v);
      assert (x + w)[1..] == x[1..] + w && (x + v)[1..] == x[1..] + v;
    }
  }

  lemma DoubledHere(x: Text, w: Text, v: Text)
    requires x != "" && x[|x| - 1] == ']' && Doubled(w, v)
    ensures Doubled(x + w, x + ("]" + v))
  {
    var y := x[..|x| - 1];
    assert ("]" + w)[1..] == w && ("]]" + v)[2..] == v;
    assert Doubled("]" + w, "]]" + v);
    DoubledPrefix(y, "]" + w, "]]" + v);
    assert x + w == y + ("]" + w) && x + ("]" + v) == y + ("]]" + v);
  }

  /** The second pass only doubles the `]` of markers. */
  lemma {:induction false} SecondIsDoubled(t: Text, p: nat)
    requires Settled(t) && p <= |t|
    ensures Doubled(t[p..], Second(t, p))
    decreases |t| - p
  {
    hide Settled;
    hide ValueAt;
    hide Second;
    hide Doubled;
    hide IsMarkAt;
    hide IsHeadChar;
    hide KeyValueMatch;
    if p == |t| {
      NothingLeft(t);
    } else if ValueAt(t, p).None? {
      SecondCopies(t, p);
      SecondIsDoubled(t, p + 1);
      assert t[p..] == [t[p]] + t[p + 1..];
      DoubledPrefix([t[p]], t[p + 1..], Second(t, p + 1));
    } else {
      var n := ValueAt(t, p).value;
      ValueFacts(t, p, n);
      SecondDoubles(t, p, n);
      SecondIsDoubled(t, n + 10);
      MarkChars(t, n);
      assert t[p..] == t[p..n + 10] + t[n + 10..];
      DoubledHere(t[p..n + 10], t[n + 10..], Second(t, n + 10));
    }
  }

  lemma NothingLeft(t: Text)
    ensures Second(t, |t|) == "" && Doubled(t[|t|..], Second(t, |t|))
  {
  }

  /** Doubling a `]` makes no credential and unmakes none. */
  lemma {:induction false} SecretTailDoubled(t: Text, v: Text)
    requires Doubled(t, v)
    ensures SecretTail(v) == SecretTail(t)
    decreases |t|
  {
    if t != "" {
      if Doubled(t[1..], v[1..]) {
        SecretTailDoubled(t[1..], v[1..]);
      } else {
        SecretTailDoubled(t[1..], v[2..]);
        assert v[1..][1..] == v[2..];
      }
    }
  }

  lemma {:induction false} UserTailDoubled(t: Text, v: Text)
    requires Doubled(t, v)
    ensures UserTail(v) == UserTail(t)
    decreases |t|
  {
    if t != "" {
      if Doubled(t[1..], v[1..]) {
        UserTailDoubled(t[1..], v[1..]);
        SecretHeadDoubled(t[1..], v[1..]);
      } else {
        UserTailDoubled(t[1..], v[2..]);
        assert v[1..][1..] == v[2..];
      }
    }
  }

  lemma SecretHeadDoubled(t: Text, v: Text)
    requires Doubled(t, v)
    ensures SecretHead(v) == SecretHead(t)
  {
    if t != "" {
      SecretTailDoubled(t, v);
      if Doubled(t[1..], v[1..]) {
        SecretTailDoubled(t[1..], v[1..]);
      } else {
        SecretTailDoubled(t[1..], v[2..]);
        assert v[1..][1..] == v[2..];
      }
    }
  }

  lemma {:induction false} SchemeTailDoubled(t: Text, v: Text)
    requires Doubled(t, v)
    ensures SchemeTail(v) == SchemeTail(t)
    decreases |t|
  {
    if t != "" {
      if Doubled(t[1..], v[1..]) {
        SchemeTailDoubled(t[1..], v[1..]);
        if SchemeEnds(t, 0) || SchemeEnds(v, 0) {
          SchemeEndDoubled(t, v);
        }
      }
    }
  }

  lemma SchemeEndDoubled(t: Text, v: Text)
    requires Doubled(t, v) && (SchemeEnds(t, 0) || SchemeEnds(v, 0))
    ensures SchemeEnds(t, 0) && SchemeEnds(v, 0) && UserTail(t[3..]) == UserTail(v[3..])
  {
    assert Doubled(t[1..], v[1..]);
    assert t[1..][0] == v[1..][0] == '/';
    assert Doubled(t[1..][1..], v[1..][1..]);
    assert t[1..][1..] == t[2..] && v[1..][1..] == v[2..];
    assert t[2..][0] == v[2..][0] == '/';
    assert Doubled(t[2..][1..], v[2..][1..]);
    assert t[2..][1..] == t[3..] && v[2..][1..] == v[3..];
    UserTailDoubled(t[3..], v[3..]);
  }

  lemma UrlHeadDoubled(prev: char, t: Text, v: Text)
    requires Doubled(t, v)
    ensures UrlMatch(prev, v).Some? == UrlMatch(prev, t).Some?
  {
    UrlHeadIff(prev, t);
    UrlHeadIff(prev, v);
    if t != "" {
      if Doubled(t[1..], v[1..]) {
        SchemeTailDoubled(t[1..], v[1..]);
      }
    }
  }

  // ---------------------------------------------------------------- what the third pass takes away

  /** What the last two passes make of `t` from `p` on. */
  function Again(t: Text, p: nat): Text
    requires p <= |t|
  {
    Sub(UrlMatch, Before(START, t, p), Second(t, p))
  }

  lemma AgainCopies(t: Text, p: nat)
    requires Settled(t) && p < |t| && ValueAt(t, p).None? && SecretAt(t, p).None?
    ensures Again(t, p) == [t[p]] + Again(t, p + 1)
  {
    SecondCopies(t, p);
    SecondIsDoubled(t, p);
    UrlHeadDoubled(Before(START, t, p), t[p..], Second(t, p));
    hide Second;
    hide UrlMatch;
    assert Second(t, p)[1..] == Second(t, p + 1);
  }

  lemma {:induction false} SkipNoUrl(prev: char, x: Text, y: Text)
    requires forall i | 0 <= i < |x| :: UrlMatch(Before(prev, x, i), (x + y)[i..]).None?
    ensures Sub(UrlMatch, prev, x + y) == x + Sub(UrlMatch, Before(prev, x, |x|), y)
    decreases |x|
  {
    hide UrlMatch;
    hide Sub;
    if x == "" {
      assert x + y == y;
    } else {
      assert (x + y)[0..] == x + y && (x + y)[1..] == x[1..] + y && (x + y)[0] == x[0];
      assert UrlMatch(Before(prev, x, 0), (x + y)[0..]).None?;
      forall i | 0 <= i < |x[1..]|
        ensures UrlMatch(Before(x[0], x[1..], i), (x[1..] + y)[i..]).None?
      {
        assert (x[1..] + y)[i..] == (x + y)[i + 1..];
        assert Before(prev, x, i + 1) == Before(x[0], x[1..], i);
        assert UrlMatch(Before(prev, x, i + 1), (x + y)[i + 1..]).None?;
      }
      SkipNoUrl(x[0], x[1..], y);
      SubCopies(UrlMatch, prev, x + y);
      assert x == [x[0]] + x[1..];
    }
  }

  lemma SubCopies(m: Matcher, prev: char, t: Text)
    requires t != "" && m(prev, t).None?
    ensures Sub(m, prev, t) == [t[0]] + Sub(m, t[0], t[1..])
  {
  }

  /** A value that is no secret keeps its second `]`. */
  lemma AgainKeeps(t: Text, p: nat, n: nat)
    requires Settled(t) && p <= |t| && ValueAt(t, p) == Some(n)
    ensures n + 10 <= |t| && Again(t, p) == t[p..n + 10] + ("]" + Again(t, n + 10))
  {
    hide UrlMatch;
    hide Second;
    hide ValueAt;
    hide Settled;
    hide IsHeadChar;
    hide KeyValueMatch;
    hide Sub;
    SecondDoubles(t, p, n);
    ValueFacts(t, p, n);
    var prev, x, rest := Before(START, t, p), t[p..n + 10], Second(t, n + 10);
    forall i | 0 <= i < |x|
      ensures UrlMatch(Before(prev, x, i), (x + ("]" + rest))[i..]).None?
    {
      NoUrlInHead(t, p, n, p + i);
      assert (x + ("]" + rest))[i..] == t[p + i..n + 10] + ("]" + rest);
      assert Before(prev, x, i) == Before(START, t, p + i);
    }
    SkipNoUrl(prev, x, "]" + rest);
    MarkChars(t, n);
    CopyBracket(x[|x| - 1], rest);
  }

  lemma CopyBracket(prev: char, rest: Text)
    ensures Sub(UrlMatch, prev, "]" + rest) == "]" + Sub(UrlMatch, ']', rest)
  {
    assert ("]" + rest)[1..] == rest;
  }

  lemma NoUrlInHead(t: Text, p: nat, n: nat, i: nat)
    requires Settled(t) && p <= |t| && ValueAt(t, p) == Some(n) && p <= i < n + 10 <= |t|
    ensures UrlMatch(Before(START, t, i), t[i..n + 10] + ("]" + Second(t, n + 10))).None?
  {
    hide Second;
    hide ValueAt;
    ValueFacts(t, p, n);
    MarkChars(t, n);
    SecondIsDoubled(t, n + 10);
    NoSecretBeforeValue(t, p, n, i);
    hide UrlMatch;
    hide Settled;
    assert t[i..] == t[i..n + 10] + t[n + 10..];
    DoubledHere(t[i..n + 10], t[n + 10..], Second(t, n + 10));
    UrlHeadDoubled(Before(START, t, i), t[i..], t[i..n + 10] + ("]" + Second(t, n + 10)));
  }

  lemma NoSecretBeforeValue(t: Text, p: nat, n: nat, j: nat)
    requires Settled(t) && p <= |t| && ValueAt(t, p) == Some(n) && p <= j < n + 10 && j <= |t|
    ensures SecretAt(t, j).None?
  {
    ValueFacts(t, p, n);
    if SecretAt(t, j).Some? {
      var m := SecretAt(t, j).value;
      var b := SecretFacts(t, j, m);
      NoUrlBeforeValue(t, p, n, j, b, m);
    }
  }

  lemma {:induction false} SecondSkips(t: Text, i: nat, q: nat)
    requires i <= q <= |t| && forall j | i <= j < q :: ValueAt(t, j).None?
    ensures Second(t, i) == t[i..q] + Second(t, q)
    decreases q - i
  {
    hide ValueAt;
    hide Second;
    if i < q {
      SecondCopies(t, i);
      SecondSkips(t, i + 1, q);
      assert t[i..q] == [t[i]] + t[i + 1..q];
    } else {
      assert t[i..q] == "";
    }
  }

  /** Every name between `i` and `k` has its value at `k`. */
  ghost predicate OnlySecret(t: Text, i: nat, k: nat)
    requires k <= |t|
  {
    forall j | i <= j < k && ValueAt(t, j).Some? :: ValueAt(t, j).value == k
  }

  /** A value whose name stands in front of the marker at `k` is that one, or lies before it. */
  lemma ValueBefore(t: Text, k: nat, j: nat, n: nat)
    requires Settled(t) && j < k && IsMarkAt(t, k) && ValueAt(t, j) == Some(n)
    ensures n == k || n + 10 <= k
  {
    ValueFacts(t, j, n);
    MarkChars(t, k);
    MarkChars(t, n);
  }

  lemma NoValueInMark(t: Text, k: nat, j: nat)
    requires IsMarkAt(t, k) && k <= j <= k + 10 && j < |t| && (j == k + 10 ==> t[j] == '@')
    ensures ValueAt(t, j).None?
  {
    if j == k + 10 {
      NotALetter(Before(START, t, j), t[j..]);
    } else {
      var u := t[k..];
      assert MARK <= u[0..] by {
        assert u[..10] == MARK;
      }
      NoNameInMarker(Before(START, t, k), u, 0, j - k);
      assert u[j - k..] == t[j..];
    }
  }

  predicate IsMarkOrTwice(s: Text) { s == MARK || s == MARK + "]" }

  lemma SecretMark(t: Text, k: nat) returns (s: Text)
    requires IsMarkAt(t, k) && k + 10 < |t| && t[k + 10] == '@'
    ensures IsMarkOrTwice(s) && Second(t, k) == s + ("@" + Second(t, k + 11))
  {
    s := MARK;
    forall j | k <= j < k + 11
      ensures ValueAt(t, j).None?
    {
      NoValueInMark(t, k, j);
    }
    SecondSkips(t, k, k + 11);
    assert t[k..k + 11] == MARK + "@";
  }

  /** What the second pass makes of the rest of a credential. */
  lemma {:induction false} InsideUrl(t: Text, i: nat, k: nat) returns (x: Text, s: Text)
    requires Settled(t) && i <= k && IsMarkAt(t, k) && k + 10 < |t| && t[k + 10] == '@'
    ensures IsMarkOrTwice(s) && Second(t, i) == x + (s + ("@" + Second(t, k + 11)))
    ensures Doubled(t[i..k], x) && |x| >= k - i && (|x| == k - i <==> OnlySecret(t, i, k))
    ensures |x| == k - i ==> x == t[i..k]
    decreases k - i
  {
    hide Second;
    hide ValueAt;
    hide Settled;
    hide Doubled;
    hide OnlySecret;
    hide IsMarkOrTwice;
    if i == k {
      x := "";
      s := SecretMark(t, k);
      NothingInside(t, k);
      assert "" + (s + ("@" + Second(t, k + 11))) == s + ("@" + Second(t, k + 11));
    } else if ValueAt(t, i).None? {
      var y: Text;
      y, s := InsideUrl(t, i + 1, k);
      x := [t[i]] + y;
      SecondCopies(t, i);
      OneMoreInside(t, i, k, y);
    } else {
      var n := ValueAt(t, i).value;
      ValueBefore(t, k, i, n);
      ValueFacts(t, i, n);
      if n == k {
        x, s := SecretValue(t, i, k);
      } else {
        var y: Text;
        y, s := InsideUrl(t, n + 10, k);
        x := t[i..n + 10] + ("]" + y);
        SecondDoubles(t, i, n);
        InnerValue(t, i, k, n, y);
        Regroup3(t[i..n + 10], y, s + ("@" + Second(t, k + 11)));
      }
    }
  }

  lemma NothingInside(t: Text, k: nat)
    requires k <= |t|
    ensures Doubled(t[k..k], "") && OnlySecret(t, k, k)
  {
  }

  lemma OneMoreInside(t: Text, i: nat, k: nat, y: Text)
    requires i < k <= |t| && ValueAt(t, i).None? && Doubled(t[i + 1..k], y)
    ensures Doubled(t[i..k], [t[i]] + y) && (OnlySecret(t, i, k) <==> OnlySecret(t, i + 1, k))
    ensures t[i..k] == [t[i]] + t[i + 1..k]
  {
    hide ValueAt;
    DoubledPrefix([t[i]], t[i + 1..k], y);
    assert t[i..k] == [t[i]] + t[i + 1..k];
  }

  lemma InnerValue(t: Text, i: nat, k: nat, n: nat, y: Text)
    requires i < n && n + 10 <= k <= |t| && ValueAt(t, i) == Some(n) && IsMarkAt(t, n) && Doubled(t[n + 10..k], y)
    ensures Doubled(t[i..k], t[i..n + 10] + ("]" + y)) && !OnlySecret(t, i, k)
  {
    hide ValueAt;
    MarkChars(t, n);
    assert t[i..k] == t[i..n + 10] + t[n + 10..k];
    DoubledHere(t[i..n + 10], t[n + 10..k], y);
  }

  lemma Regroup3(a: Text, b: Text, c: Text)
    ensures a + ("]" + (b + c)) == a + ("]" + b) + c
  {
  }

  lemma SecretValue(t: Text, i: nat, k: nat) returns (x: Text, s: Text)
    requires Settled(t) && i < k && IsMarkAt(t, k) && k + 10 < |t| && t[k + 10] == '@' && ValueAt(t, i) == Some(k)
    ensures IsMarkOrTwice(s) && Second(t, i) == x + (s + ("@" + Second(t, k + 11)))
    ensures x == t[i..k] && Doubled(t[i..k], x) && OnlySecret(t, i, k)
  {
    hide Second;
    hide ValueAt;
    hide Settled;
    x, s := t[i..k], MARK + "]";
    SecondDoubles(t, i, k);
    SameValueBehind(t, i, k);
    NoValueInMark(t, k, k + 10);
    SecondCopies(t, k + 10);
    assert t[i..k + 10] == t[i..k] + MARK;
    DoubledSelf(t[i..k]);
  }

  lemma {:induction false} DoubledSelf(t: Text)
    ensures Doubled(t, t)
  {
    if t != "" {
      DoubledSelf(t[1..]);
    }
  }

  /** Names within the head of a match have the value of that match. */
  lemma SameValueBehind(t: Text, i: nat, k: nat)
    requires Settled(t) && i <= |t| && ValueAt(t, i) == Some(k)
    ensures k <= |t| && OnlySecret(t, i, k)
  {
    hide Settled;
    hide ValueAt;
    hide IsHeadChar;
    ValueFacts(t, i, k);
    forall j | i <= j < k && ValueAt(t, j).Some?
      ensures ValueAt(t, j).value == k
    {
      var n := ValueAt(t, j).value;
      ValueFacts(t, j, n);
      ValueBefore(t, k, j, n);
      MarkChars(t, n);
      BracketIsNoHead();
    }
  }

  lemma BracketIsNoHead()
    ensures !IsHeadChar('[')
  {
  }

  lemma {:induction false} DoubledBehind(a: Text, b: Text, v: Text) returns (w: Text)
    requires Doubled(a + b, v) && forall i | 0 <= i < |a| :: a[i] != ']'
    ensures v == a + w && Doubled(b, w)
  {
    if a == "" {
      w := v;
      assert a + b == b;
    } else {
      assert (a + b)[1..] == a[1..] + b;
      w := DoubledBehind(a[1..], b, v[1..]);
      assert v == [v[0]] + v[1..];
    }
  }

  lemma {:induction false} DoubledUser(b: Text, w: Text)
    requires Doubled(b, w) && b != "" && All(USER, b, 0, |b| - 1) && b[|b| - 1] == ':'
    ensures w != "" && All(USER, w, 0, |w| - 1) && w[|w| - 1] == ':'
    decreases |b|
  {
    if |b| > 1 {
      var rest := if Doubled(b[1..], w[1..]) then w[1..] else w[2..];
      assert forall i {:trigger b[1..][i]} | 0 <= i < |b| - 2 :: b[1..][i] == b[i + 1] && In(USER, b[i + 1]);
      DoubledUser(b[1..], rest);
      assert w == w[..|w| - |rest|] + rest;
      assert In(USER, w[0]) && (|w| - |rest| == 2 ==> In(USER, w[1]));
      forall i | 0 <= i < |w| - 1
        ensures In(USER, w[i])
      {
        assert i >= |w| - |rest| ==> w[i] == rest[i - (|w| - |rest|)];
      }
    } else {
      assert b[1..] == "" && w[1..] == "";
    }
  }

  /** The head of a credential with doubled brackets: the scheme is as it was. */
  lemma DoubledHead(t: Text, p: nat, a: nat, k: nat, x: Text) returns (n: nat)
    requires IsUrl(t, p, a, k) && Doubled(t[p..k], x)
    ensures
      && 1 <= n && n + 3 < |x| && IsLetter(x[0]) && All(SCHEME, x, 1, n) && SchemeEnds(x, n)
      && All(USER, x, n + 3, |x| - 1) && x[|x| - 1] == ':'
  {
    hide IsMarkAt;
    hide Doubled;
    n := a - p;
    var h, b := t[p..a + 3], t[a + 3..k];
    assert t[p..k] == h + b;
    assert forall i {:trigger h[i]} | 0 <= i < |h| :: h[i] == t[p + i] && (0 < i < a - p ==> In(SCHEME, t[p + i]));
    var w := DoubledBehind(h, b, x);
    assert forall i {:trigger b[i]} | 0 <= i < |b| - 1 :: b[i] == t[a + 3 + i] && In(USER, t[a + 3 + i]);
    assert b[|b| - 1] == t[k - 1];
    DoubledUser(b, w);
    assert forall i {:trigger x[i]} | 0 <= i < |h| :: x[i] == h[i];
    assert forall i {:trigger x[i]} | |h| <= i < |x| :: x[i] == w[i - |h|];
  }

  lemma PlainMarks(s: Text)
    requires IsMarkOrTwice(s)
    ensures s != "" && All(PLAIN, s, 0, |s|)
  {
  }

  /** A credential whose user has doubled brackets, and whose secret may end in one more, matches. */
  lemma DoubledUrl(prev: char, t: Text, p: nat, a: nat, k: nat, x: Text, s: Text, rest: Text)
    requires IsUrl(t, p, a, k) && !IsWord(prev) && Doubled(t[p..k], x) && IsMarkOrTwice(s)
    ensures UrlMatch(prev, x + (s + ("@" + rest))) == Some(Span(|x|, |x| + |s|, |x| + |s| + 1))
  {
    hide Doubled;
    hide IsUrl;
    hide IsMarkOrTwice;
    hide All;
    hide UrlMatch;
    hide UrlSpan;
    hide SchemeEnds;
    hide IsLetter;
    hide IsWord;
    var n := DoubledHead(t, p, a, k, x);
    PlainMarks(s);
    JoinedUrl(prev, x, n, s, rest);
    UrlMatchIs(prev, x + (s + ("@" + rest)), n, |x|, |x| + |s|);
  }

  lemma JoinedUrl(prev: char, x: Text, n: nat, s: Text, rest: Text)
    requires 1 <= n && n + 3 < |x| && IsLetter(x[0]) && All(SCHEME, x, 1, n) && SchemeEnds(x, n) && !IsWord(prev)
    requires All(USER, x, n + 3, |x| - 1) && x[|x| - 1] == ':' && s != "" && All(PLAIN, s, 0, |s|)
    ensures UrlSpan(prev, x + (s + ("@" + rest)), n, |x|, |x| + |s|)
  {
    var v := x + (s + ("@" + rest));
    AllAlong(SCHEME, x, v, 1, n, 0);
    AllAlong(USER, x, v, n + 3, |x| - 1, 0);
    AllAlong(PLAIN, s, v, 0, |s|, |x|);
  }

  lemma AllAlong(c: Class, x: Text, v: Text, lo: nat, hi: nat, off: nat)
    requires lo <= hi <= |x| && off + hi <= |v| && All(c, x, lo, hi)
    requires forall i | lo <= i < hi :: v[off + i] == x[i]
    ensures All(c, v, off + lo, off + hi)
  {
    assert forall i {:trigger v[i]} | off + lo <= i < off + hi :: v[i] == v[off + (i - off)] == x[i - off];
  }

  /** Of a credential, the third pass takes the second `]` of the secret, and no other. */
  lemma AgainUrl(t: Text, p: nat, k: nat) returns (x: Text)
    requires Settled(t) && p <= |t| && SecretAt(t, p) == Some(k)
    ensures p < k && k + 10 < |t| && IsMarkAt(t, k) && t[k + 10] == '@'
    ensures Again(t, p) == x + (MARK + ("@" + Again(t, k + 11)))
    ensures |x| >= k - p && (|x| == k - p <==> OnlySecret(t, p, k))
    ensures |x| == k - p ==> x == t[p..k]
  {
    hide Second;
    hide SecretAt;
    hide ValueAt;
    hide Settled;
    var a := SecretFacts(t, p, k);
    var s: Text;
    x, s := InsideUrl(t, p, k);
    DoubledUrl(Before(START, t, p), t, p, a, k, x, s, Second(t, k + 11));
    hide UrlMatch;
    hide IsUrl;
    hide Doubled;
    SubOfUrl(Before(START, t, p), x, s, Second(t, k + 11));
  }

  lemma SubOfUrl(prev: char, x: Text, s: Text, rest: Text)
    requires UrlMatch(prev, x + (s + ("@" + rest))) == Some(Span(|x|, |x| + |s|, |x| + |s| + 1))
    ensures Sub(UrlMatch, prev, x + (s + ("@" + rest))) == x + (MARK + ("@" + Sub(UrlMatch, '@', rest)))
  {
    var v := x + (s + ("@" + rest));
    hide UrlMatch;
    hide Sub;
    SubOfMatch(UrlMatch, prev, v);
    assert v[..|x|] == x && v[|x| + |s|..|x| + |s| + 1] == "@" && v[|x| + |s|] == '@' && v[|x| + |s| + 1..] == rest;
    Regroup(x, MARK, "@", Sub(UrlMatch, '@', rest));
  }

  // ---------------------------------------------------------------- the two passes together

  /** From `p` on, the value of every name is the secret of a credential. */
  ghost predicate ValuesAreSecrets(t: Text, p: nat) {
    forall i | p <= i < |t| && ValueAt(t, i).Some? :: IsSecret(t, p, ValueAt(t, i).value)
  }

  ghost predicate IsSecret(t: Text, p: nat, n: nat) {
    exists j | p <= j < |t| :: SecretAt(t, j) == Some(n)
  }

  lemma OneFurther(t: Text, p: nat)
    requires p < |t| && ValueAt(t, p).None? && SecretAt(t, p).None?
    ensures ValuesAreSecrets(t, p) <==> ValuesAreSecrets(t, p + 1)
  {
    hide ValueAt;
    hide SecretAt;
    forall n
      ensures IsSecret(t, p, n) <==> IsSecret(t, p + 1, n)
    {
    }
  }

  lemma BareValueIsNoSecret(t: Text, p: nat, n: nat)
    requires Settled(t) && p < |t| && ValueAt(t, p) == Some(n)
    ensures !ValuesAreSecrets(t, p)
  {
    hide ValueAt;
    hide SecretAt;
    if IsSecret(t, p, n) {
      var j :| p <= j < |t| && SecretAt(t, j) == Some(n);
      var _ := SecretFacts(t, j, n);
      NoSecretBeforeValue(t, p, n, j);
    }
  }

  /** A credential settles the names that stand in it. */
  lemma BehindUrl(t: Text, p: nat, k: nat)
    requires Settled(t) && p < |t| && SecretAt(t, p) == Some(k) && k + 10 < |t|
    ensures ValuesAreSecrets(t, p) <==> OnlySecret(t, p, k) && ValuesAreSecrets(t, k + 11)
  {
    hide ValueAt;
    hide SecretAt;
    hide Settled;
    var a := SecretFacts(t, p, k);
    forall j, m | p <= j < k + 11 && SecretAt(t, j) == Some(m)
      ensures m == k
    {
      var b := SecretFacts(t, j, m);
      OneSecret(t, p, a, k, j, b, m);
    }
    forall j, m | k + 11 <= j < |t| && SecretAt(t, j) == Some(m)
      ensures m > k + 11
    {
      var _ := SecretFacts(t, j, m);
    }
    forall i: nat, n | i < |t| && ValueAt(t, i) == Some(n)
      ensures i < n && (i < k ==> n <= k) && !(k <= i < k + 11)
    {
      ValueFacts(t, i, n);
      if i < k {
        ValueBefore(t, k, i, n);
      } else if i < k + 11 {
        NoValueInMark(t, k, i);
      }
    }
    assert IsSecret(t, p, k);
    hide IsUrl;
    hide IsMarkAt;
  }

  lemma {:induction false} AgainIff(t: Text, p: nat)
    requires Settled(t) && p <= |t|
    ensures |Again(t, p)| >= |t| - p
    ensures |Again(t, p)| == |t| - p <==> ValuesAreSecrets(t, p)
    ensures |Again(t, p)| == |t| - p ==> Again(t, p) == t[p..]
    decreases |t| - p
  {
    hide ValueAt;
    hide SecretAt;
    hide Again;
    hide Settled;
    hide ValuesAreSecrets;
    if p == |t| {
      NothingAgain(t);
    } else if SecretAt(t, p).Some? {
      var k := SecretAt(t, p).value;
      var x := AgainUrl(t, p, k);
      AgainIff(t, k + 11);
      BehindUrl(t, p, k);
      CutUrl(t, p, k);
    } else if ValueAt(t, p).Some? {
      var n := ValueAt(t, p).value;
      AgainKeeps(t, p, n);
      ValueFacts(t, p, n);
      AgainIff(t, n + 10);
      BareValueIsNoSecret(t, p, n);
    } else {
      AgainCopies(t, p);
      AgainIff(t, p + 1);
      OneFurther(t, p);
      assert t[p..] == [t[p]] + t[p + 1..];
    }
  }

  lemma CutUrl(t: Text, p: nat, k: nat)
    requires p <= k && IsMarkAt(t, k) && k + 10 < |t| && t[k + 10] == '@'
    ensures t[p..] == t[p..k] + (MARK + ("@" + t[k + 11..]))
  {
    assert t[p..] == t[p..k] + (t[k..k + 10] + (t[k + 10..k + 11] + t[k + 11..]));
  }

  lemma NothingAgain(t: Text)
    ensures Again(t, |t|) == t[|t|..] == "" && ValuesAreSecrets(t, |t|)
  {
    assert t[|t|..] == "";
  }

  // ---------------------------------------------------------------- redacting twice

  lemma OutputIsSettled(t: Text)
    ensures Settled(FullPath(t)) && Sub(BearerMatch, START, FullPath(t)) == FullPath(t)
  {
    hide Sub;
    hide HasMatch;
    hide Clean;
    var once := Sub(BearerMatch, START, t);
    var twice := Sub(KeyValueMatch, START, once);
    FullPathIs(t);
    SecondPassCleans(once);
    ThirdPassKeepsClean(twice);
    UrlCopiesClean();
    UrlRewritesClean();
    PassCleans(UrlMatch, UrlMatch, false, START, twice);
    FirstPassClears(START, START, t);
    PatternsLeaveNoB();
    if HasMatch(BearerMatch, START, twice) {
      PassKeepsBearerFree(KeyValueMatch, false, START, START, once);
    }
    if HasMatch(BearerMatch, START, FullPath(t)) {
      PassKeepsBearerFree(UrlMatch, true, START, START, twice);
    }
    NothingToRewrite(BearerMatch, START, FullPath(t));
  }

  /** All three passes over a text that they have produced change nothing if and only if, in that
      text, the value of every name is the secret of a URL credential: only there does the third
      pass take away the `]` that the second one adds to a marker. */
  lemma FullPathTwiceIff(t: Text)
    ensures FullPath(FullPath(t)) == FullPath(t) <==> ValuesAreSecrets(FullPath(t), 0)
  {
    var u := FullPath(t);
    OutputIsSettled(t);
    FullPathIs(u);
    AgainIff(u, 0);
    hide Sub;
    assert u[0..] == u;
  }

  /** The same of `redact_secrets`, which also leaves a text alone that shows no anchor. */
  lemma RedactedTwiceIff(t: Text)
    ensures
      var u := Redacted(t);
      Redacted(u) == u <==> (IsAscii(u) && !HasAnchor(ANCHORS, u)) || ValuesAreSecrets(u, 0)
  {
    FullPathTwiceIff(t);
    hide FullPath;
    hide HasAnchor;
    assert ValuesAreSecrets("", 0);
  }
}
