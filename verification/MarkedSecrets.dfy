/** What it means that a pass left nothing readable, for any pattern. */
module MarkedSecrets {
  import opened Options
  import opened SecretPatterns

  /** If `n` matches at the head of `t`, the marker stands where the secret would, and the
      match does not reach beyond it. */
  predicate CleanAt(n: Matcher, prev: char, t: Text) {
    n(prev, t).Some? ==> var sp := n(prev, t).value; MARK <= t[sp.keep..] && sp.cut <= sp.keep + 10
  }

  /** Every match of `n` in `t` has the marker for its secret. */
  predicate Clean(n: Matcher, prev: char, t: Text)
    decreases |t|
  {
    t == "" || (CleanAt(n, prev, t) && Clean(n, t[0], t[1..]))
  }

  lemma {:induction false} CleanAlong(n: Matcher, prev: char, x: Text, y: Text)
    requires forall i | 0 <= i < |x| :: CleanAt(n, Before(prev, x, i), (x + y)[i..])
    requires Clean(n, Before(prev, x, |x|), y)
    ensures Clean(n, prev, x + y)
    decreases |x|
  {
    if x == "" {
      assert x + y == y;
    } else {
      assert (x + y)[0..] == x + y && (x + y)[1..] == x[1..] + y;
      assert CleanAt(n, Before(prev, x, 0), (x + y)[0..]);
      forall i | 0 <= i < |x[1..]|
        ensures CleanAt(n, Before(x[0], x[1..], i), (x[1..] + y)[i..])
      {
        assert (x[1..] + y)[i..] == (x + y)[i + 1..];
        assert Before(prev, x, i + 1) == Before(x[0], x[1..], i);
        assert CleanAt(n, Before(prev, x, i + 1), (x + y)[i + 1..]);
      }
      CleanAlong(n, x[0], x[1..], y);
    }
  }

  lemma {:induction false} CleanEverywhere(n: Matcher, prev: char, t: Text, i: nat)
    requires Clean(n, prev, t) && i <= |t|
    ensures CleanAt(n, Before(prev, t, i), t[i..])
    ensures Clean(n, Before(prev, t, i), t[i..])
    decreases i
  {
    if i > 0 {
      CleanEverywhere(n, t[0], t[1..], i - 1);
      assert t[1..][i - 1..] == t[i..];
    } else {
      assert t[0..] == t;
    }
  }

  lemma {:induction false} NoMatchIsClean(n: Matcher, prev: char, t: Text)
    requires !HasMatch(n, prev, t)
    ensures Clean(n, prev, t)
    decreases |t|
  {
    if t != "" {
      NoMatchIsClean(n, t[0], t[1..]);
    }
  }

  /** What the induction over a pass of `m` needs to know: a head that is copied, or rewritten,
      comes out clean if what the scan makes of the rest does. `was` says whether the input
      may be taken to be clean already. */
  ghost predicate CopiesClean(m: Matcher, n: Matcher, was: bool) {
    forall prev, t {:trigger Clean(n, prev, Sub(m, prev, t))}
      | t != "" && m(prev, t).None? && (was ==> Clean(n, prev, t)) && Clean(n, t[0], Sub(m, t[0], t[1..])) ::
      Clean(n, prev, Sub(m, prev, t))
  }

  ghost predicate RewritesClean(m: Matcher, n: Matcher, was: bool) {
    forall prev, t {:trigger Clean(n, prev, Sub(m, prev, t))}
      | m(prev, t).Some? && t != "" && (was ==> Clean(n, prev, t))
        && var e := m(prev, t).value.end; Clean(n, t[e - 1], Sub(m, t[e - 1], t[e..])) ::
      Clean(n, prev, Sub(m, prev, t))
  }

  lemma PassOnNothing(m: Matcher, n: Matcher, prev: char)
    ensures Clean(n, prev, Sub(m, prev, ""))
  {
  }

  lemma {:induction false} PassCleans(m: Matcher, n: Matcher, was: bool, prev: char, t: Text)
    requires CopiesClean(m, n, was) && RewritesClean(m, n, was)
    requires was ==> Clean(n, prev, t)
    ensures Clean(n, prev, Sub(m, prev, t))
    decreases |t|
  {
    hide Clean;
    hide Sub;
    if t == "" {
      PassOnNothing(m, n, prev);
    } else {
      var e := if m(prev, t).None? then 1 else m(prev, t).value.end;
      if was {
        CleanEverywhere(n, prev, t, e);
      }
      PassCleans(m, n, was, t[e - 1], t[e..]);
    }
  }

  lemma SubOfMatch(m: Matcher, prev: char, t: Text)
    requires t != "" && m(prev, t).Some?
    ensures
      var sp := m(prev, t).value;
      Sub(m, prev, t) == t[..sp.keep] + Gap(sp, t) + Sub(m, t[sp.end - 1], t[sp.end..])
  {
  }

  lemma Regroup(a: Text, b: Text, c: Text, d: Text)
    ensures a + (b + c) + d == a + (b + (c + d))
  {
  }

  lemma Join(a: Text, b: Text, c: Text)
    ensures a + b + c == a + (b + c)
  {
  }

  lemma GapWithoutTail(sp: Span, t: Text)
    requires Fits(sp, t) && sp.cut == sp.end
    ensures Gap(sp, t) == MARK
  {
    assert t[sp.cut..sp.end] == "";
  }

  lemma SubWithoutTail(m: Matcher, prev: char, t: Text)
    requires m(prev, t).Some? && m(prev, t).value.cut == m(prev, t).value.end
    ensures
      var sp := m(prev, t).value;
      Sub(m, prev, t) == t[..sp.keep] + (MARK + Sub(m, t[sp.end - 1], t[sp.end..]))
  {
    hide Sub;
    hide Gap;
    var sp := m(prev, t).value;
    SubOfMatch(m, prev, t);
    GapWithoutTail(sp, t);
    Join(t[..sp.keep], MARK, Sub(m, t[sp.end - 1], t[sp.end..]));
  }
}
