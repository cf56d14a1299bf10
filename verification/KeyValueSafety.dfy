/** After the second pass, and still after the third, every `name=value` has the marker for
    its value. */
module KeyValueSafety {
  import opened Options
  import opened SecretPatterns
  import opened SecretMatching
  import opened MarkedSecrets
  import opened UrlSafety
  import BearerSafety

  // ---------------------------------------------------------------- a span moves along

  lemma {:induction false} KeyEndOnPrefix(words: seq<Text>, t: Text, u: Text, i: nat, n: nat)
    requires i <= n <= |t| && n <= |u| && forall x | 0 <= x < n :: t[x] == u[x]
    requires KeyEnd(words, u, i).Some? && KeyEnd(words, u, i).value < n
    ensures KeyEnd(words, t, i) == KeyEnd(words, u, i)
  {
    if words != [] {
      var k := i + |words[0]|;
      KeyEndOnPrefix(words[1..], t, u, if |words| > 1 && k < |u| && IsSeparator(u[k]) then k + 1 else k, n);
    }
  }

  /** A span is decided by what stands up to the first character of its value. */
  lemma SpanOnPrefix(prev: char, t: Text, u: Text, ws: seq<Word>, e: nat, a: nat, b: nat, c: nat)
    requires KeyValueSpan(prev, u, ws, e, a, b, c)
    requires b < |t| && forall x | 0 <= x < b :: t[x] == u[x]
    requires In(VALUE, t[b])
    ensures KeyValueSpan(prev, t, ws, e, a, b, b + 1)
  {
    KeyEndOnPrefix(Spelled(ws), t, u, 0, b);
  }

  /** What can stand before a value: name, spaces and delimiter. */
  predicate IsHeadChar(c: char) { IsKeyChar(c) || IsSpace(c) || IsDelimiter(c) }

  lemma SpanHead(prev: char, u: Text, ws: seq<Word>, e: nat, a: nat, b: nat, c: nat)
    requires KeyValueSpan(prev, u, ws, e, a, b, c)
    ensures forall x | 0 <= x < e :: IsKeyChar(u[x])
    ensures forall x | 0 <= x < b :: IsHeadChar(u[x])
    ensures 0 < e && IsLetter(u[0]) && Lower(u[0]) != 'r' && !IsAlnum(prev)
  {
    KeywordsNonEmpty(ws);
    KeyNameChars(Spelled(ws), u, 0);
    hide KeyEnd;
    hide Spelled;
    forall x | 0 <= x < b
      ensures IsHeadChar(u[x])
    {
      if e <= x < a || a < x < b { assert In(SPACE, u[x]); }
    }
  }

  lemma NotALetter(prev: char, u: Text)
    requires u != "" && (!IsLetter(u[0]) || Lower(u[0]) == 'r' || IsAlnum(prev))
    ensures KeyValueMatch(prev, u).None?
  {
    if KeyValueMatch(prev, u).Some? {
      var ws, e, a := KeyValueMatchHas(prev, u);
      var sp := KeyValueMatch(prev, u).value;
      SpanHead(prev, u, ws, e, a, sp.keep, sp.cut);
    }
  }

  /** The match stops at the `]` of the marker. */
  lemma StopsAtMarker(prev: char, u: Text)
    requires KeyValueMatch(prev, u).Some? && MARK <= u[KeyValueMatch(prev, u).value.keep..]
    ensures CleanAt(KeyValueMatch, prev, u)
  {
    var _, _, _ := KeyValueMatchHas(prev, u);
    var k := KeyValueMatch(prev, u).value.keep;
    assert u[k + 9] == u[k..][9] == MARK[9];
  }

  /** The marker contains no name. */
  lemma NoNameInMarker(prev: char, u: Text, k: nat, i: nat)
    requires k + 10 <= |u| && MARK <= u[k..] && k <= i < k + 10
    ensures KeyValueMatch(Before(prev, u, i), u[i..]).None?
  {
    assert u[i] == u[k..][i - k] == MARK[i - k];
    if i > k {
      assert u[i - 1] == u[k..][i - 1 - k] == MARK[i - 1 - k];
    }
    NotALetter(Before(prev, u, i), u[i..]);
  }

  // ---------------------------------------------------------------- the second pass

  lemma NoValueBehind(prev: char, t: Text)
    requires KeyValueMatch(prev, t).Some?
    ensures var e := KeyValueMatch(prev, t).value.end; e < |t| ==> !In(VALUE, t[e])
  {
    var _, _, _ := KeyValueMatchHas(prev, t);
  }

  lemma SameBefore(prev: char, x: Text, y: Text, i: nat)
    requires i <= |x|
    ensures Before(prev, x, i) == Before(prev, x + y, i)
  {
  }

  lemma ValueEndsMatch(prev: char, t: Text)
    requires KeyValueMatch(prev, t).Some?
    ensures var sp := KeyValueMatch(prev, t).value; sp.end == sp.cut && In(VALUE, t[sp.keep])
  {
    var _, _, _ := KeyValueMatchHas(prev, t);
  }

  lemma ValueInMatch(prev: char, t: Text, out: Text, n: nat)
    requires KeyValueMatch(prev, t).Some? && n < |out| && In(VALUE, out[n]) && forall i | 0 <= i < n :: out[i] != '['
    requires exists rest :: out == t[..KeyValueMatch(prev, t).value.keep] + (MARK + rest)
    ensures n < |t| && In(VALUE, t[n])
  {
    hide KeyValueMatch;
    hide In;
    ValueEndsMatch(prev, t);
    var k := KeyValueMatch(prev, t).value.keep;
    assert out[k] == '[';
  }

  /** A value character that comes out of the second pass stands where one went in. */
  lemma {:induction false} ValueWasThere(prev: char, t: Text, n: nat)
    requires var out := Sub(KeyValueMatch, prev, t);
      n < |out| && (forall i | 0 <= i < n :: out[i] != '[') && In(VALUE, out[n])
    ensures n < |t| && In(VALUE, t[n])
    decreases |t|
  {
    hide KeyValueMatch;
    hide In;
    var out := Sub(KeyValueMatch, prev, t);
    if t == "" {
    } else if KeyValueMatch(prev, t).None? {
      if n > 0 {
        assert forall i | 0 <= i < n :: out[i + 1] == Sub(KeyValueMatch, t[0], t[1..])[i];
        ValueWasThere(t[0], t[1..], n - 1);
      }
    } else {
      hide Sub;
      ValueEndsMatch(prev, t);
      SubWithoutTail(KeyValueMatch, prev, t);
      ValueInMatch(prev, t, out, n);
    }
  }

  lemma CopiedHeadUnmatched(prev: char, t: Text)
    requires t != "" && KeyValueMatch(prev, t).None?
    ensures KeyValueMatch(prev, Sub(KeyValueMatch, prev, t)).None?
  {
    var out := Sub(KeyValueMatch, prev, t);
    if KeyValueMatch(prev, out).Some? {
      var ws, e, a := KeyValueMatchHas(prev, out);
      var sp := KeyValueMatch(prev, out).value;
      hide KeyValueMatch;
      hide Sub;
      SpanHead(prev, out, ws, e, a, sp.keep, sp.cut);
      BearerSafety.CopiedPrefix(KeyValueMatch, prev, t, sp.keep);
      assert In(VALUE, out[sp.keep]);
      ValueWasThere(prev, t, sp.keep);
      assert forall x | 0 <= x < sp.keep :: t[x] == t[..sp.keep][x] == out[..sp.keep][x] == out[x];
      SpanOnPrefix(prev, t, out, ws, e, a, sp.keep, sp.cut);
      KeyValueMatchIs(prev, t, ws, e, a, sp.keep, sp.keep + 1);
    }
  }

  /** A name that starts inside a rewritten span ends where that span's name ends, so its
      value is the marker too. */
  lemma SameValue(prev: char, t: Text, u: Text, ws: seq<Word>, e: nat, a: nat, k: nat, c: nat,
                  p: char, i: nat, vs: seq<Word>, e': nat, a': nat, b': nat, c': nat)
    requires KeyValueSpan(prev, t, ws, e, a, k, c) && k < |u|
    requires (forall x | 0 <= x < k :: u[x] == t[x]) && u[k] == '['
    requires i < k && KeyValueSpan(p, u[i..], vs, e', a', b', c')
    ensures i + b' == k
  {
    SpanHead(prev, t, ws, e, a, k, c);
    SpanHead(p, u[i..], vs, e', a', b', c');
    hide KeyEnd;
    hide Spelled;
    assert forall x | 0 <= x < |u[i..]| :: u[i..][x] == u[i + x];
    assert forall x {:trigger u[x]} | i <= x < |u| :: u[x] == u[i..][x - i];
    assert forall x | 0 <= x < e :: IsKeyChar(u[x]);
    assert forall x | e <= x < k :: !IsKeyChar(u[x]);
    assert forall x | i <= x < i + e' :: IsKeyChar(u[x]);
    assert u[i..][0] == u[i];
    assert i < e && !IsKeyChar(u[i + e']) && !IsKeyChar(u[e]);
    assert i + e' == e;
    assert IsDelimiter(u[a]) && IsDelimiter(u[i + a']);
    assert forall x | e <= x < a :: In(SPACE, u[x]);
    assert forall x | e <= x < i + a' :: In(SPACE, u[x]);
    assert i + a' == a;
    assert forall x | a < x < k :: In(SPACE, u[x]);
    assert forall x | a < x < i + b' :: In(SPACE, u[x]);
    assert !In(SPACE, u[i + b']) by {
      assert In(VALUE, u[i..][b']);
    }
    assert i + b' == k;
  }

  lemma RewrittenHeadClean(prev: char, t: Text, rest: Text, i: nat)
    requires KeyValueMatch(prev, t).Some?
    requires i < KeyValueMatch(prev, t).value.keep + 10
    ensures
      var u := t[..KeyValueMatch(prev, t).value.keep] + MARK + rest;
      CleanAt(KeyValueMatch, Before(prev, u, i), u[i..])
  {
    var k := KeyValueMatch(prev, t).value.keep;
    var ws, e, a := KeyValueMatchHas(prev, t);
    var c := KeyValueMatch(prev, t).value.cut;
    hide KeyValueMatch;
    var u := t[..k] + MARK + rest;
    assert u[k..] == MARK + rest;
    if i >= k {
      NoNameInMarker(prev, u, k, i);
    } else if KeyValueMatch(Before(prev, u, i), u[i..]).Some? {
      var p := Before(prev, u, i);
      var sp := KeyValueMatch(p, u[i..]).value;
      var vs, e', a' := KeyValueMatchHas(p, u[i..]);
      SameValue(prev, t, u, ws, e, a, k, c, p, i, vs, e', a', sp.keep, sp.cut);
      assert u[i..][sp.keep..] == u[k..];
      StopsAtMarker(p, u[i..]);
    }
  }

  lemma CleanBehindMarker(prev: char, prev': char, t: Text)
    requires t == "" || !In(VALUE, t[0])
    requires Clean(KeyValueMatch, prev, Sub(KeyValueMatch, prev, t))
    ensures Clean(KeyValueMatch, prev', Sub(KeyValueMatch, prev, t))
  {
    if t != "" {
      NotALetter(prev, t);
      NotALetter(prev', Sub(KeyValueMatch, prev, t));
    }
  }

  lemma KeyValueCopiesClean()
    ensures CopiesClean(KeyValueMatch, KeyValueMatch, false)
  {
    hide KeyValueMatch;
    forall prev, t {:trigger Clean(KeyValueMatch, prev, Sub(KeyValueMatch, prev, t))}
      | t != "" && KeyValueMatch(prev, t).None? && Clean(KeyValueMatch, t[0], Sub(KeyValueMatch, t[0], t[1..]))
      ensures Clean(KeyValueMatch, prev, Sub(KeyValueMatch, prev, t))
    {
      CopiedHeadUnmatched(prev, t);
      var out := Sub(KeyValueMatch, prev, t);
      assert out[0] == t[0] && out[1..] == Sub(KeyValueMatch, t[0], t[1..]);
    }
  }

  lemma CleanRewrittenValue(prev: char, t: Text)
    requires KeyValueMatch(prev, t).Some? && t != ""
    requires var e := KeyValueMatch(prev, t).value.end;
      Clean(KeyValueMatch, t[e - 1], Sub(KeyValueMatch, t[e - 1], t[e..]))
    ensures Clean(KeyValueMatch, prev, Sub(KeyValueMatch, prev, t))
  {
    hide KeyValueMatch;
    hide Clean;
    hide CleanAt;
    hide Sub;
    var sp := KeyValueMatch(prev, t).value;
    var rest := Sub(KeyValueMatch, t[sp.end - 1], t[sp.end..]);
    var x := t[..sp.keep] + MARK;
    ValueEndsMatch(prev, t);
    SubWithoutTail(KeyValueMatch, prev, t);
    Join(t[..sp.keep], MARK, rest);
    NoValueBehind(prev, t);
    CleanBehindMarker(t[sp.end - 1], ']', t[sp.end..]);
    forall i | 0 <= i < |x|
      ensures CleanAt(KeyValueMatch, Before(prev, x, i), (x + rest)[i..])
    {
      RewrittenHeadClean(prev, t, rest, i);
      SameBefore(prev, x, rest, i);
    }
    assert Before(prev, x, |x|) == ']';
    CleanAlong(KeyValueMatch, prev, x, rest);
  }

  lemma KeyValueRewritesClean()
    ensures RewritesClean(KeyValueMatch, KeyValueMatch, false)
  {
    hide KeyValueMatch;
    hide Clean;
    hide Sub;
    forall prev, t {:trigger Clean(KeyValueMatch, prev, Sub(KeyValueMatch, prev, t))}
      | KeyValueMatch(prev, t).Some? && t != ""
        && var e := KeyValueMatch(prev, t).value.end; Clean(KeyValueMatch, t[e - 1],
                                                            Sub(KeyValueMatch, t[e - 1], t[e..]))
      ensures Clean(KeyValueMatch, prev, Sub(KeyValueMatch, prev, t))
    {
      CleanRewrittenValue(prev, t);
    }
  }

  lemma SecondPassCleans(t: Text)
    ensures Clean(KeyValueMatch, START, Sub(KeyValueMatch, START, t))
  {
    KeyValueCopiesClean();
    KeyValueRewritesClean();
    PassCleans(KeyValueMatch, KeyValueMatch, false, START, t);
  }

  // ---------------------------------------------------------------- the third pass

  lemma NoUrlInMarker(prev: char, u: Text, j: nat, rest: Text)
    requires j < 10 && u == MARK[j..] + rest && (j > 0 ==> prev == MARK[j - 1])
    ensures UrlMatch(prev, u).None?
  {
    assert forall x | 0 <= x < 10 - j :: u[x] == MARK[j..][x] == MARK[j + x];
    if j == 1 {
      var a := RunTo(SCHEME, u, 1);
      assert !In(SCHEME, u[8]) && All(SCHEME, u, 1, a);
      assert a <= 8 && u[a] != ':';
    }
  }

  lemma CopiedHead(m: Matcher, prev: char, c: char, v: Text)
    requires m(prev, [c] + v).None?
    ensures Sub(m, prev, [c] + v) == [c] + Sub(m, c, v)
  {
    assert ([c] + v)[1..] == v;
  }

  lemma {:induction false} MarkerStays(prev: char, j: nat, rest: Text)
    requires j <= 10 && (j > 0 ==> prev == MARK[j - 1])
    ensures MARK[j..] <= Sub(UrlMatch, prev, MARK[j..] + rest)
    decreases 10 - j
  {
    hide UrlMatch;
    hide Sub;
    if j < 10 {
      NoUrlInMarker(prev, MARK[j..] + rest, j, rest);
      assert MARK[j..] == [MARK[j]] + MARK[j + 1..];
      assert MARK[j..] + rest == [MARK[j]] + (MARK[j + 1..] + rest);
      CopiedHead(UrlMatch, prev, MARK[j], MARK[j + 1..] + rest);
      MarkerStays(MARK[j], j + 1, rest);
    }
  }

  lemma UrlPassForm(prev: char, t: Text)
    requires UrlMatch(prev, t).Some? && t != ""
    ensures
      var sp := UrlMatch(prev, t).value;
      var rest := Sub(UrlMatch, t[sp.end - 1], t[sp.end..]);
      && t[sp.end - 1] == '@'
      && Sub(UrlMatch, prev, t) == t[..sp.keep] + (MARK + ("@" + rest))
  {
    hide UrlMatch;
    hide Sub;
    hide Gap;
    hide Rewritten;
    var sp := UrlMatch(prev, t).value;
    SubOfMatch(UrlMatch, prev, t);
    var _ := RewrittenAfterPass(prev, t, "");
    Regroup(t[..sp.keep], MARK, "@", Sub(UrlMatch, t[sp.end - 1], t[sp.end..]));
  }

  /** A marker that starts in the kept part of a URL credential lies in it. */
  lemma MarkerInUser(prev: char, t: Text, n: nat)
    requires UrlMatch(prev, t).Some? && n < UrlMatch(prev, t).value.keep && MARK <= t[n..]
    ensures n + 10 < UrlMatch(prev, t).value.keep
  {
    var k := UrlMatch(prev, t).value.keep;
    var a := UrlMatchHas(prev, t);
    assert t[k - 1] == ':';
    assert forall x {:trigger t[x]} | n <= x < n + 10 :: t[x] == t[n..][x - n] == MARK[x - n];
  }

  /** A character that comes out of the third pass is copied or starts a marker, and a marker
      that went in comes out. */
  lemma {:induction false} UrlPassAt(prev: char, t: Text, n: nat)
    requires var out := Sub(UrlMatch, prev, t); n < |out| && forall i | 0 <= i < n :: out[i] != '['
    ensures n < |t|
    ensures
      var out := Sub(UrlMatch, prev, t);
      MARK <= out[n..] || (out[n] == t[n] && !(MARK <= t[n..]))
    decreases |t|
  {
    var out := Sub(UrlMatch, prev, t);
    if t == "" {
    } else if UrlMatch(prev, t).None? {
      var rest := Sub(UrlMatch, t[0], t[1..]);
      assert out[0] == t[0] && out[1..] == rest;
      if n > 0 {
        assert forall i | 0 <= i < n :: out[i + 1] == rest[i];
        UrlPassAt(t[0], t[1..], n - 1);
        assert rest[n - 1..] == out[n..] && t[1..][n - 1..] == t[n..];
      } else if MARK <= t {
        assert t == MARK[0..] + t[10..];
        MarkerStays(prev, 0, t[10..]);
        assert out[0..] == out;
      } else {
        assert t[0..] == t;
      }
    } else {
      UrlPassAtMatch(prev, t, n);
    }
  }

  /** A stretch of `t` that is still there in `u`. */
  lemma MarkerCopied(t: Text, u: Text, n: nat, k: nat)
    requires n + 10 <= k <= |t| && k <= |u| && (forall x | n <= x < k :: u[x] == t[x])
    requires MARK <= t[n..]
    ensures MARK <= u[n..]
  {
    assert forall x | 0 <= x < 10 :: u[n..][x] == u[n + x] == t[n + x] == t[n..][x] == MARK[x];
  }

  lemma UrlPassAtMatch(prev: char, t: Text, n: nat)
    requires UrlMatch(prev, t).Some? && t != ""
    requires var out := Sub(UrlMatch, prev, t); n < |out| && forall i | 0 <= i < n :: out[i] != '['
    ensures n < |t|
    ensures
      var out := Sub(UrlMatch, prev, t);
      MARK <= out[n..] || (out[n] == t[n] && !(MARK <= t[n..]))
  {
    hide Sub;
    hide UrlMatch;
    UrlPassForm(prev, t);
    var sp := UrlMatch(prev, t).value;
    var out := Sub(UrlMatch, prev, t);
    var more := "@" + Sub(UrlMatch, t[sp.end - 1], t[sp.end..]);
    assert out == t[..sp.keep] + (MARK + more);
    assert out[sp.keep] == '[';
    if n == sp.keep {
      assert out[n..] == MARK + more;
    } else if MARK <= t[n..] {
      MarkerInUser(prev, t, n);
      MarkerCopied(t, out, n, sp.keep);
    }
  }

  /** A match of the copied text that does not have the marker was one in the input. */
  lemma OldMatch(prev: char, t: Text, out: Text, n: nat)
    requires KeyValueMatch(prev, out).Some? && n == KeyValueMatch(prev, out).value.keep
    requires n < |t| && t[..n] == out[..n] && out[n] == t[n]
    ensures KeyValueMatch(prev, t).Some? && KeyValueMatch(prev, t).value.keep == n
  {
    var ws, e, a := KeyValueMatchHas(prev, out);
    var c := KeyValueMatch(prev, out).value.cut;
    hide KeyValueMatch;
    assert In(VALUE, out[n]);
    assert forall x | 0 <= x < n :: t[x] == t[..n][x] == out[..n][x] == out[x];
    SpanOnPrefix(prev, t, out, ws, e, a, n, c);
    KeyValueMatchIs(prev, t, ws, e, a, n, n + 1);
  }

  lemma UrlCopyKeepsClean(prev: char, t: Text)
    requires t != "" && CleanAt(KeyValueMatch, prev, t)
    ensures CleanAt(KeyValueMatch, prev, Sub(UrlMatch, prev, t))
  {
    hide KeyValueMatch;
    hide UrlMatch;
    hide Sub;
    var out := Sub(UrlMatch, prev, t);
    if KeyValueMatch(prev, out).Some? {
      var ws, e, a := KeyValueMatchHas(prev, out);
      var sp := KeyValueMatch(prev, out).value;
      SpanHead(prev, out, ws, e, a, sp.keep, sp.cut);
      hide KeyValueSpan;
      BearerSafety.CopiedPrefix(UrlMatch, prev, t, sp.keep);
      UrlPassAt(prev, t, sp.keep);
      if !(MARK <= out[sp.keep..]) {
        OldMatch(prev, t, out, sp.keep);
      }
      StopsAtMarker(prev, out);
    }
  }

  /** Inside a rewritten URL credential, a value is the new marker or was one before. */
  lemma UrlHeadKeepsClean(prev: char, t: Text, rest: Text, i: nat)
    requires UrlMatch(prev, t).Some? && Clean(KeyValueMatch, prev, t)
    requires i < UrlMatch(prev, t).value.keep + 11
    ensures
      var u := t[..UrlMatch(prev, t).value.keep] + (MARK + ("@" + rest));
      CleanAt(KeyValueMatch, Before(prev, u, i), u[i..])
  {
    var k := UrlMatch(prev, t).value.keep;
    var u := t[..k] + (MARK + ("@" + rest));
    assert u[k..] == MARK + ("@" + rest);
    if i == k + 10 {
      assert u[i..][0] == u[i] == (MARK + ("@" + rest))[10] == '@';
      NotALetter(Before(prev, u, i), u[i..]);
    } else if i >= k {
      NoNameInMarker(prev, u, k, i);
    } else if KeyValueMatch(Before(prev, u, i), u[i..]).Some? {
      ValueInUrlHead(prev, t, u, k, i);
    }
  }

  /** A value whose first character lies in the kept part was there, and was the marker. */
  lemma OldValueInUrlHead(prev: char, t: Text, u: Text, k: nat, i: nat, ws: seq<Word>, e: nat, a: nat, b: nat, c: nat)
    requires UrlMatch(prev, t).Some? && Clean(KeyValueMatch, prev, t) && k == UrlMatch(prev, t).value.keep
    requires k < |u| && (forall x | 0 <= x < k :: u[x] == t[x])
    requires i + b < k && KeyValueSpan(Before(prev, u, i), u[i..], ws, e, a, b, c)
    ensures MARK <= u[i + b..]
  {
    hide KeyEnd;
    hide Spelled;
    hide Clean;
    hide UrlMatch;
    var p := Before(prev, t, i);
    assert In(VALUE, u[i..][b]);
    assert forall x | 0 <= x <= b :: t[i..][x] == t[i + x] == u[i + x] == u[i..][x];
    SpanOnPrefix(p, t[i..], u[i..], ws, e, a, b, c);
    KeyValueMatchIs(p, t[i..], ws, e, a, b, b + 1);
    CleanEverywhere(KeyValueMatch, prev, t, i);
    hide KeyValueMatch;
    assert t[i..][b..] == t[i + b..];
    MarkerInUser(prev, t, i + b);
    MarkerCopied(t, u, i + b, k);
  }

  lemma ValueInUrlHead(prev: char, t: Text, u: Text, k: nat, i: nat)
    requires UrlMatch(prev, t).Some? && Clean(KeyValueMatch, prev, t) && k == UrlMatch(prev, t).value.keep
    requires k < |u| && (forall x | 0 <= x < k :: u[x] == t[x]) && MARK <= u[k..]
    requires i < k && KeyValueMatch(Before(prev, u, i), u[i..]).Some?
    ensures CleanAt(KeyValueMatch, Before(prev, u, i), u[i..])
  {
    hide KeyValueMatch;
    hide KeyEnd;
    hide Spelled;
    hide Clean;
    hide UrlMatch;
    var p := Before(prev, u, i);
    var ws, e, a := KeyValueMatchHas(p, u[i..]);
    var sp := KeyValueMatch(p, u[i..]).value;
    var b := sp.keep;
    SpanHead(p, u[i..], ws, e, a, b, sp.cut);
    assert u[k] == u[k..][0] == MARK[0] && u[i..][k - i] == u[k];
    assert i + b <= k;
    if i + b < k {
      OldValueInUrlHead(prev, t, u, k, i, ws, e, a, b, sp.cut);
    }
    assert u[i..][b..] == u[i + b..];
    StopsAtMarker(p, u[i..]);
  }

  lemma UrlRewriteKeepsClean(prev: char, t: Text)
    requires UrlMatch(prev, t).Some? && t != "" && Clean(KeyValueMatch, prev, t)
    requires var e := UrlMatch(prev, t).value.end; Clean(KeyValueMatch, t[e - 1], Sub(UrlMatch, t[e - 1], t[e..]))
    ensures Clean(KeyValueMatch, prev, Sub(UrlMatch, prev, t))
  {
    hide Clean;
    hide CleanAt;
    hide UrlMatch;
    hide Sub;
    hide KeyValueMatch;
    var sp := UrlMatch(prev, t).value;
    UrlPassForm(prev, t);
    var rest := Sub(UrlMatch, t[sp.end - 1], t[sp.end..]);
    var x := t[..sp.keep] + (MARK + "@");
    assert x + rest == t[..sp.keep] + (MARK + ("@" + rest));
    forall i | 0 <= i < |x|
      ensures CleanAt(KeyValueMatch, Before(prev, x, i), (x + rest)[i..])
    {
      UrlHeadKeepsClean(prev, t, rest, i);
      assert Before(prev, x, i) == Before(prev, x + rest, i);
    }
    CleanAlong(KeyValueMatch, prev, x, rest);
  }

  lemma UrlCopiesKeepClean()
    ensures CopiesClean(UrlMatch, KeyValueMatch, true)
  {
    hide KeyValueMatch;
    hide UrlMatch;
    forall prev, t {:trigger Clean(KeyValueMatch, prev, Sub(UrlMatch, prev, t))}
      | t != "" && UrlMatch(prev, t).None? && Clean(KeyValueMatch, prev, t)
        && Clean(KeyValueMatch, t[0], Sub(UrlMatch, t[0], t[1..]))
      ensures Clean(KeyValueMatch, prev, Sub(UrlMatch, prev, t))
    {
      UrlCopyKeepsClean(prev, t);
      var out := Sub(UrlMatch, prev, t);
      assert out[0] == t[0] && out[1..] == Sub(UrlMatch, t[0], t[1..]);
    }
  }

  lemma UrlRewritesKeepClean()
    ensures RewritesClean(UrlMatch, KeyValueMatch, true)
  {
    hide KeyValueMatch;
    hide UrlMatch;
    hide Clean;
    hide Sub;
    forall prev, t {:trigger Clean(KeyValueMatch, prev, Sub(UrlMatch, prev, t))}
      | UrlMatch(prev, t).Some? && t != "" && Clean(KeyValueMatch, prev, t)
        && var e := UrlMatch(prev, t).value.end; Clean(KeyValueMatch, t[e - 1], Sub(UrlMatch, t[e - 1], t[e..]))
      ensures Clean(KeyValueMatch, prev, Sub(UrlMatch, prev, t))
    {
      UrlRewriteKeepsClean(prev, t);
    }
  }

  lemma ThirdPassKeepsClean(t: Text)
    requires Clean(KeyValueMatch, START, t)
    ensures Clean(KeyValueMatch, START, Sub(UrlMatch, START, t))
  {
    UrlCopiesKeepClean();
    UrlRewritesKeepClean();
    PassCleans(UrlMatch, KeyValueMatch, true, START, t);
  }

  // ---------------------------------------------------------------- what is left

  /** In every `name=value` of `t` the value is the marker up to its bracket, and the bracket
      follows. */
  ghost predicate ValuesMarked(t: Text) {
    forall i: nat, ws: seq<Word>, e: nat, a: nat, b: nat, c: nat
      | i <= |t| && KeyValueSpan(Before(START, t, i), t[i..], ws, e, a, b, c) ::
      MARK <= t[i..][b..] && c < b + 10
  }

  lemma SpanOfMarker(prev: char, u: Text, ws: seq<Word>, e: nat, a: nat, b: nat, c: nat)
    requires KeyValueSpan(prev, u, ws, e, a, b, c) && CleanAt(KeyValueMatch, prev, u)
    ensures MARK <= u[b..] && c < b + 10
  {
    KeyValueMatchIs(prev, u, ws, e, a, b, c);
    hide KeyValueMatch;
    hide KeyEnd;
    assert u[b + 9] == u[b..][9] == MARK[9];
    assert !In(VALUE, u[b + 9]) && All(VALUE, u, b, c);
  }

  lemma CleanIsValuesMarked(t: Text)
    requires Clean(KeyValueMatch, START, t)
    ensures ValuesMarked(t)
  {
    hide KeyValueMatch;
    hide KeyEnd;
    hide Clean;
    hide CleanAt;
    forall i: nat, ws: seq<Word>, e: nat, a: nat, b: nat, c: nat
      | i <= |t| && KeyValueSpan(Before(START, t, i), t[i..], ws, e, a, b, c)
      ensures MARK <= t[i..][b..] && c < b + 10
    {
      CleanEverywhere(KeyValueMatch, START, t, i);
      SpanOfMarker(Before(START, t, i), t[i..], ws, e, a, b, c);
    }
  }

  /** Whatever text the last two passes are given. */
  lemma LastPassesMarkValues(t: Text)
    ensures ValuesMarked(Sub(UrlMatch, START, Sub(KeyValueMatch, START, t)))
  {
    SecondPassCleans(t);
    ThirdPassKeepsClean(Sub(KeyValueMatch, START, t));
    CleanIsValuesMarked(Sub(UrlMatch, START, Sub(KeyValueMatch, START, t)));
  }
}
