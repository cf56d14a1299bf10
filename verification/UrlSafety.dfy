/** After the last pass, the secret of every URL credential left in the text is the marker. */
module UrlSafety {
  import opened Options
  import opened SecretPatterns
  import opened SecretMatching
  import opened MarkedSecrets

  // The URL pattern once more, one character at a time: what must still follow.

  predicate SecretTail(t: Text) {
    t != "" && (t[0] == '@' || (In(PLAIN, t[0]) && SecretTail(t[1..])))
  }

  predicate SecretHead(t: Text) {
    t != "" && In(PLAIN, t[0]) && SecretTail(t[1..])
  }

  predicate UserTail(t: Text) {
    t != "" && ((t[0] == ':' && SecretHead(t[1..])) || (In(USER, t[0]) && UserTail(t[1..])))
  }

  predicate SchemeTail(t: Text) {
    t != "" && ((In(SCHEME, t[0]) && SchemeTail(t[1..])) || (SchemeEnds(t, 0) && UserTail(t[3..])))
  }

  predicate UrlHead(prev: char, t: Text) {
    t != "" && !IsWord(prev) && IsLetter(t[0]) && SchemeTail(t[1..])
  }

  // The same by position, which is how the matcher proceeds.

  predicate SecretTailAt(t: Text, i: nat)
    requires i <= |t|
    decreases |t| - i
  {
    i < |t| && (t[i] == '@' || (In(PLAIN, t[i]) && SecretTailAt(t, i + 1)))
  }

  predicate UserTailAt(t: Text, i: nat)
    requires i <= |t|
    decreases |t| - i
  {
    i < |t| && if t[i] == ':' then i + 1 < |t| && In(PLAIN, t[i + 1]) && SecretTailAt(t, i + 2)
               else In(USER, t[i]) && UserTailAt(t, i + 1)
  }

  predicate SchemeTailAt(t: Text, i: nat)
    requires i <= |t|
    decreases |t| - i
  {
    i < |t| && if In(SCHEME, t[i]) then SchemeTailAt(t, i + 1) else SchemeEnds(t, i) && UserTailAt(t, i + 3)
  }

  lemma {:induction false} SecretTailMoves(t: Text, i: nat)
    requires i <= |t|
    ensures SecretTail(t[i..]) == SecretTailAt(t, i)
    decreases |t| - i
  {
    if i < |t| {
      assert t[i..][1..] == t[i + 1..];
      SecretTailMoves(t, i + 1);
    }
  }

  lemma SecretHeadMoves(t: Text, i: nat)
    requires i < |t|
    ensures SecretHead(t[i..]) == (In(PLAIN, t[i]) && SecretTailAt(t, i + 1))
  {
    assert t[i..][1..] == t[i + 1..];
    SecretTailMoves(t, i + 1);
  }

  lemma {:induction false} UserTailMoves(t: Text, i: nat)
    requires i <= |t|
    ensures UserTail(t[i..]) == UserTailAt(t, i)
    decreases |t| - i
  {
    if i < |t| {
      assert t[i..][1..] == t[i + 1..];
      UserTailMoves(t, i + 1);
      if i + 1 < |t| {
        SecretHeadMoves(t, i + 1);
      }
    }
  }

  lemma {:induction false} SchemeTailMoves(t: Text, i: nat)
    requires i <= |t|
    ensures SchemeTail(t[i..]) == SchemeTailAt(t, i)
    decreases |t| - i
  {
    if i < |t| {
      assert t[i..][1..] == t[i + 1..];
      SchemeTailMoves(t, i + 1);
      if i + 3 <= |t| {
        assert t[i..][3..] == t[i + 3..];
        UserTailMoves(t, i + 3);
      }
    }
  }

  lemma {:induction false} SecretTailRuns(t: Text, i: nat)
    requires i <= |t|
    ensures SecretTailAt(t, i) <==> var d := RunTo(PLAIN, t, i); d < |t| && t[d] == '@'
    decreases |t| - i
  {
    if i < |t| && In(PLAIN, t[i]) {
      SecretTailRuns(t, i + 1);
    }
  }

  lemma {:induction false} UserTailRuns(t: Text, i: nat)
    requires i <= |t|
    ensures UserTailAt(t, i) <==>
      var b := RunTo(USER, t, i);
      b < |t| && t[b] == ':' && var d := RunTo(PLAIN, t, b + 1); b + 1 < d < |t| && t[d] == '@'
    decreases |t| - i
  {
    if i < |t| {
      if t[i] == ':' {
        if i + 1 < |t| {
          SecretTailRuns(t, i + 2);
        }
      } else if In(USER, t[i]) {
        UserTailRuns(t, i + 1);
      }
    }
  }

  lemma {:induction false} SchemeTailRuns(t: Text, i: nat)
    requires i <= |t|
    ensures SchemeTailAt(t, i) <==> var a := RunTo(SCHEME, t, i); SchemeEnds(t, a) && UserTailAt(t, a + 3)
    decreases |t| - i
  {
    if i < |t| && In(SCHEME, t[i]) {
      SchemeTailRuns(t, i + 1);
    }
  }

  lemma UrlMatchIsTail(prev: char, t: Text)
    requires t != ""
    ensures UrlMatch(prev, t).Some? <==> !IsWord(prev) && IsLetter(t[0]) && SchemeTailAt(t, 1)
  {
    SchemeTailRuns(t, 1);
    var a := RunTo(SCHEME, t, 1);
    if SchemeEnds(t, a) {
      UserTailRuns(t, a + 3);
    }
  }

  lemma UrlHeadIff(prev: char, t: Text)
    ensures UrlHead(prev, t) <==> UrlMatch(prev, t).Some?
  {
    if t != "" {
      SchemeTailMoves(t, 1);
      UrlMatchIsTail(prev, t);
    }
  }

  // ---------------------------------------------------------------- a URL inside a URL

  lemma {:induction false} UserIsSecret(t: Text)
    requires UserTail(t)
    ensures SecretTail(t)
  {
    if In(USER, t[0]) && UserTail(t[1..]) {
      UserIsSecret(t[1..]);
    }
  }

  lemma {:induction false} SchemeIsUser(t: Text)
    requires SchemeTail(t)
    ensures UserTail(t) && SecretTail(t)
  {
    if In(SCHEME, t[0]) && SchemeTail(t[1..]) {
      SchemeIsUser(t[1..]);
    } else {
      UserIsSecret(t[3..]);
      assert t[1..][1..] == t[2..] && t[2..][1..] == t[3..];
      assert SecretTail(t[2..]);
    }
  }

  /** A URL credential is acceptable wherever the rest of another one is expected. */
  lemma UrlIsAnything(prev: char, t: Text)
    requires UrlHead(prev, t)
    ensures SchemeTail(t) && UserTail(t) && SecretTail(t) && SecretHead(t)
  {
    SchemeIsUser(t[1..]);
  }

  lemma SubStep(prev: char, t: Text)
    requires t != ""
    ensures Sub(UrlMatch, prev, t) != "" && Sub(UrlMatch, prev, t)[0] == t[0]
    ensures !UrlHead(prev, t) ==> Sub(UrlMatch, prev, t)[1..] == Sub(UrlMatch, t[0], t[1..])
  {
    UrlHeadIff(prev, t);
  }

  lemma {:induction false} SecretTailWas(prev: char, t: Text)
    requires SecretTail(Sub(UrlMatch, prev, t))
    ensures SecretTail(t)
    decreases |t|
  {
    if t != "" {
      SubStep(prev, t);
      if UrlHead(prev, t) {
        UrlIsAnything(prev, t);
      } else if t[0] != '@' {
        SecretTailWas(t[0], t[1..]);
      }
    }
  }

  lemma SecretHeadWas(prev: char, t: Text)
    requires SecretHead(Sub(UrlMatch, prev, t))
    ensures SecretHead(t)
  {
    if t != "" {
      SubStep(prev, t);
      if UrlHead(prev, t) {
        UrlIsAnything(prev, t);
      } else {
        SecretTailWas(t[0], t[1..]);
      }
    }
  }

  lemma {:induction false} UserTailWas(prev: char, t: Text)
    requires UserTail(Sub(UrlMatch, prev, t))
    ensures UserTail(t)
    decreases |t|
  {
    if t != "" {
      SubStep(prev, t);
      if UrlHead(prev, t) {
        UrlIsAnything(prev, t);
      } else if t[0] == ':' {
        SecretHeadWas(t[0], t[1..]);
      } else {
        UserTailWas(t[0], t[1..]);
      }
    }
  }

  lemma {:induction false} SchemeTailWas(prev: char, t: Text)
    requires SchemeTail(Sub(UrlMatch, prev, t))
    ensures SchemeTail(t)
    decreases |t|
  {
    if t != "" {
      SubStep(prev, t);
      if UrlHead(prev, t) {
        UrlIsAnything(prev, t);
      } else if In(SCHEME, t[0]) {
        SchemeTailWas(t[0], t[1..]);
      } else {
        SchemeEndWas(prev, t);
      }
    }
  }

  lemma SchemeEndWas(prev: char, t: Text)
    requires t != "" && !IsLetter(t[0])
    requires var out := Sub(UrlMatch, prev, t); SchemeEnds(out, 0) && UserTail(out[3..])
    ensures SchemeEnds(t, 0) && UserTail(t[3..])
  {
    var out := Sub(UrlMatch, prev, t);
    var out1, t1 := Sub(UrlMatch, t[0], t[1..]), t[1..];
    SubStep(prev, t);
    assert out[1] == out1[0] && t1 != "";
    SubStep(t[0], t1);
    var out2, t2 := Sub(UrlMatch, t1[0], t1[1..]), t1[1..];
    assert out[2] == out1[1] == out2[0] && t2 != "";
    SubStep(t1[0], t2);
    assert out[3..] == out2[1..] && t[3..] == t2[1..];
    UserTailWas(t2[0], t2[1..]);
  }

  /** The last pass creates no URL credential. */
  lemma UrlHeadWas(prev: char, prev': char, t: Text)
    requires IsWord(prev) == IsWord(prev')
    requires UrlMatch(prev', Sub(UrlMatch, prev, t)).Some?
    ensures UrlMatch(prev, t).Some?
  {
    UrlHeadIff(prev', Sub(UrlMatch, prev, t));
    UrlHeadIff(prev, t);
    SubStep(prev, t);
    if !UrlHead(prev, t) {
      SchemeTailWas(t[0], t[1..]);
    }
  }

  // ---------------------------------------------------------------- what is left

  /** `u` is a rewritten URL credential: scheme up to `a`, marker at `k`, then `@`. */
  predicate Rewritten(u: Text, a: nat, k: nat) {
    && 1 <= a && a + 3 < k && k + 10 < |u|
    && All(SCHEME, u, 0, a) && SchemeEnds(u, a)
    && All(USER, u, a + 3, k - 1) && u[k - 1] == ':'
    && u[k..k + 10] == MARK && u[k + 10] == '@'
  }

  /** The characters of a rewritten credential that no scheme, user or secret can contain. */
  lemma MarkerChars(u: Text, a: nat, k: nat)
    requires Rewritten(u, a, k)
    ensures u[k] == '[' && u[k + 9] == ']' && All(PLAIN, u, k, k + 10)
    ensures forall x | k <= x < k + 10 :: u[x] != ':' && u[x] != '@'
  {
    assert forall x | k <= x < k + 10 :: u[x] == u[k..k + 10][x - k];
  }

  /** Anything in a rewritten credential that still reads as a credential has the marker for
      its secret. */
  lemma CleanInside(prev: char, u: Text, a: nat, k: nat, i: nat)
    requires Rewritten(u, a, k) && i < k + 11
    ensures CleanAt(UrlMatch, prev, u[i..])
  {
    hide UrlMatch;
    if UrlMatch(prev, u[i..]).Some? {
      var b := UrlMatchHas(prev, u[i..]);
      var sp := UrlMatch(prev, u[i..]).value;
      hide Rewritten;
      StartsInScheme(u, a, k, i, b);
      SameSecret(u, a, k, i, b, sp.keep, sp.cut);
    }
  }

  /** The marker and what is next to it cannot be part of a scheme. */
  lemma StartsInScheme(u: Text, a: nat, k: nat, i: nat, b: nat)
    requires Rewritten(u, a, k) && i < k + 11
    requires 1 <= b && i + b + 3 < |u| && IsLetter(u[i..][0]) && All(SCHEME, u[i..], 1, b) && SchemeEnds(u[i..], b)
    ensures i < a
  {
    var v := u[i..];
    MarkerChars(u, a, k);
    assert u[i] == v[0] && u[i + b] == v[b] && u[i + b + 1] == v[b + 1];
    assert forall x {:trigger u[x]} | i < x < i + b :: u[x] == v[x - i] && In(SCHEME, v[x - i]);
    assert !In(SCHEME, u[k - 1]) && !In(SCHEME, u[k + 9]) && u[k] != '/';
  }

  lemma SameSecret(u: Text, a: nat, k: nat, i: nat, b: nat, c: nat, d: nat)
    requires Rewritten(u, a, k) && i < a
    requires 1 <= b && b + 3 < c < d && i + d < |u|
    requires All(SCHEME, u[i..], 1, b) && SchemeEnds(u[i..], b)
    requires All(USER, u[i..], b + 3, c - 1) && u[i..][c - 1] == ':'
    requires All(PLAIN, u[i..], c, d) && u[i..][d] == '@'
    ensures MARK <= u[i..][c..] && d == c + 10
  {
    var v := u[i..];
    MarkerChars(u, a, k);
    assert forall x | 0 <= x < |v| :: v[x] == u[i + x];
    assert forall x {:trigger u[x]} | i <= x < |u| :: u[x] == v[x - i];
    assert i + b == a;
    assert i + c == k;
    assert i + d == k + 10;
    assert v[c..][..10] == u[k..k + 10];
  }

  lemma RewrittenAfterPass(prev: char, t: Text, rest: Text) returns (a: nat)
    requires UrlMatch(prev, t).Some?
    ensures var sp := UrlMatch(prev, t).value;
            Rewritten(t[..sp.keep] + Gap(sp, t) + rest, a, sp.keep)
            && Gap(sp, t) == MARK + "@" && t[sp.end - 1] == '@'
  {
    var sp := UrlMatch(prev, t).value;
    a := UrlMatchHas(prev, t);
    var u := t[..sp.keep] + Gap(sp, t) + rest;
    assert Gap(sp, t) == MARK + "@";
    assert forall x | 0 <= x < sp.keep :: u[x] == t[x];
    assert u[sp.keep..sp.keep + 10] == MARK;
  }

  lemma CleanAfterCopy(prev: char, prev': char, t: Text)
    requires IsWord(prev) == IsWord(prev')
    requires t != "" && UrlMatch(prev, t).None?
    requires Clean(UrlMatch, t[0], Sub(UrlMatch, t[0], t[1..]))
    ensures Clean(UrlMatch, prev', Sub(UrlMatch, prev, t))
  {
    var out := Sub(UrlMatch, prev, t);
    assert out[0] == t[0] && out[1..] == Sub(UrlMatch, t[0], t[1..]);
    if UrlMatch(prev', out).Some? {
      UrlHeadWas(prev, prev', t);
    }
  }

  lemma CleanAfterRewrite(prev: char, prev': char, t: Text, rest: Text)
    requires UrlMatch(prev, t).Some?
    requires Clean(UrlMatch, t[UrlMatch(prev, t).value.end - 1], rest)
    ensures
      var sp := UrlMatch(prev, t).value;
      Clean(UrlMatch, prev', t[..sp.keep] + Gap(sp, t) + rest)
  {
    var sp := UrlMatch(prev, t).value;
    var a := RewrittenAfterPass(prev, t, rest);
    CleanRewritten(prev', t[..sp.keep] + Gap(sp, t), rest, a, sp.keep);
  }

  lemma CleanRewritten(prev': char, x: Text, rest: Text, a: nat, k: nat)
    requires Rewritten(x + rest, a, k) && |x| == k + 11
    requires Clean(UrlMatch, '@', rest)
    ensures Clean(UrlMatch, prev', x + rest)
  {
    assert x[k + 10] == (x + rest)[k + 10];
    forall i | 0 <= i < |x|
      ensures CleanAt(UrlMatch, Before(prev', x, i), (x + rest)[i..])
    {
      CleanInside(Before(prev', x, i), x + rest, a, k, i);
    }
    CleanAlong(UrlMatch, prev', x, rest);
  }

  lemma UrlCopiesClean()
    ensures CopiesClean(UrlMatch, UrlMatch, false)
  {
    hide UrlMatch;
    forall prev, t {:trigger Clean(UrlMatch, prev, Sub(UrlMatch, prev, t))}
      | t != "" && UrlMatch(prev, t).None? && Clean(UrlMatch, t[0], Sub(UrlMatch, t[0], t[1..]))
      ensures Clean(UrlMatch, prev, Sub(UrlMatch, prev, t))
    {
      CleanAfterCopy(prev, prev, t);
    }
  }

  lemma UrlRewritesClean()
    ensures RewritesClean(UrlMatch, UrlMatch, false)
  {
    hide UrlMatch;
    hide Clean;
    hide Sub;
    forall prev, t {:trigger Clean(UrlMatch, prev, Sub(UrlMatch, prev, t))}
      | UrlMatch(prev, t).Some? && t != ""
        && var e := UrlMatch(prev, t).value.end; Clean(UrlMatch, t[e - 1], Sub(UrlMatch, t[e - 1], t[e..]))
      ensures Clean(UrlMatch, prev, Sub(UrlMatch, prev, t))
    {
      var e := UrlMatch(prev, t).value.end;
      CleanAfterRewrite(prev, prev, t, Sub(UrlMatch, t[e - 1], t[e..]));
      SubOfMatch(UrlMatch, prev, t);
    }
  }

  /** In every `scheme://user:…@` of `t` the secret is exactly the marker. */
  ghost predicate UrlSecretsMarked(t: Text) {
    forall i: nat, a: nat, c: nat, d: nat | i <= |t| && UrlSpan(Before(START, t, i), t[i..], a, c, d) ::
      t[i..][c..d] == MARK
  }

  lemma CleanIsMarked(t: Text)
    requires Clean(UrlMatch, START, t)
    ensures UrlSecretsMarked(t)
  {
    hide UrlMatch;
    hide Clean;
    forall i: nat, a: nat, c: nat, d: nat | i <= |t| && UrlSpan(Before(START, t, i), t[i..], a, c, d)
      ensures t[i..][c..d] == MARK
    {
      CleanEverywhere(UrlMatch, START, t, i);
      UrlMatchIs(Before(START, t, i), t[i..], a, c, d);
    }
  }

  /** Whatever text the last pass is given. */
  lemma LastPassMarksUrls(t: Text)
    ensures UrlSecretsMarked(Sub(UrlMatch, START, t))
  {
    UrlCopiesClean();
    UrlRewritesClean();
    PassCleans(UrlMatch, UrlMatch, false, START, t);
    CleanIsMarked(Sub(UrlMatch, START, t));
  }
}
