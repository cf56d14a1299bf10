/** No bearer token survives the first pass, and the later passes do not bring one back. */
module BearerSafety {
  import opened Options
  import opened SecretPatterns
  import opened SecretMatching

  /** The character before whatever follows `x`. */
  function After(prev: char, x: Text): char {
    Before(prev, x, |x|)
  }

  /** Up to the first `[`, a pass has only copied. */
  lemma {:induction false} CopiedPrefix(m: Matcher, prev: char, t: Text, n: nat)
    requires n <= |Sub(m, prev, t)| && forall i | 0 <= i < n :: Sub(m, prev, t)[i] != '['
    ensures n <= |t| && t[..n] == Sub(m, prev, t)[..n]
    decreases |t|
  {
    var out := Sub(m, prev, t);
    if t == "" || n == 0 {
    } else if m(prev, t).None? {
      var rest := Sub(m, t[0], t[1..]);
      assert forall i | 0 <= i < n - 1 :: rest[i] == out[i + 1];
      CopiedPrefix(m, t[0], t[1..], n - 1);
      assert t[..n] == [t[0]] + t[1..][..n - 1];
      assert out[..n] == [t[0]] + rest[..n - 1];
    } else {
      assert out[m(prev, t).value.keep] == '[';
    }
  }

  lemma {:induction false} BearerInSuffix(prev: char, x: Text, y: Text)
    requires HasMatch(BearerMatch, After(prev, x), y)
    ensures HasMatch(BearerMatch, prev, x + y)
    decreases |x|
  {
    if x == "" {
      assert x + y == y;
    } else {
      assert (x + y)[1..] == x[1..] + y;
      BearerInSuffix(x[0], x[1..], y);
    }
  }

  // ---------------------------------------------------------------- bearer matches move along

  /** A bearer match needs only its first eight token characters. */
  lemma BearerOnPrefix(prev: char, u: Text, v: Text)
    requires BearerMatch(prev, u).Some?
    requires var n := BearerMatch(prev, u).value.keep + 8; n <= |v| && v[..n] == u[..n]
    ensures BearerMatch(prev, v).Some?
  {
    BearerMatchIffSpan(prev, u);
    BearerMatchIffSpan(prev, v);
    var j := BearerMatch(prev, u).value.keep;
    assert forall i | 0 <= i < j + 8 :: v[i] == v[..j + 8][i] == u[..j + 8][i] == u[i];
    assert BearerSpan(prev, v, j, j + 8);
  }

  lemma BearerPrefixIsPlain(prev: char, u: Text)
    requires BearerMatch(prev, u).Some?
    ensures Lower(u[0]) == 'b'
    ensures forall i | 0 <= i < BearerMatch(prev, u).value.keep + 8 :: u[i] != '['
  {
    BearerMatchIffSpan(prev, u);
    var j := BearerMatch(prev, u).value.keep;
    forall i | 0 <= i < j + 8
      ensures u[i] != '['
    {
      if i < 6 {
        assert Lower(u[0 + i]) == BEARER[i];
      }
    }
    assert Lower(u[0 + 0]) == BEARER[0];
  }

  /** A match at the head of a pass's output was at the head of its input. */
  lemma BearerHeadWasThere(m: Matcher, prev: char, prev': char, t: Text)
    requires BearerMatch(prev', Sub(m, prev, t)).Some?
    ensures BearerMatch(prev', t).Some?
  {
    var out := Sub(m, prev, t);
    BearerPrefixIsPlain(prev', out);
    CopiedPrefix(m, prev, t, BearerMatch(prev', out).value.keep + 8);
    BearerOnPrefix(prev', out, t);
  }

  lemma {:induction false} BearerExtends(prev: char, x: Text, y: Text)
    requires HasMatch(BearerMatch, prev, x)
    ensures HasMatch(BearerMatch, prev, x + y)
    decreases |x|
  {
    if BearerMatch(prev, x).Some? {
      BearerOnPrefix(prev, x, x + y);
    } else {
      assert (x + y)[1..] == x[1..] + y;
      BearerExtends(x[0], x[1..], y);
    }
  }

  /** No bearer match reaches across a `[`. */
  lemma {:induction false} BearerSplits(prev: char, x: Text, y: Text)
    requires y != "" && y[0] == '['
    requires HasMatch(BearerMatch, prev, x + y)
    ensures HasMatch(BearerMatch, prev, x) || HasMatch(BearerMatch, After(prev, x), y)
    decreases |x|
  {
    if x == "" {
      assert x + y == y;
    } else if BearerMatch(prev, x + y).Some? {
      var n := BearerMatch(prev, x + y).value.keep + 8;
      BearerPrefixIsPlain(prev, x + y);
      assert (x + y)[|x|] == '[';
      BearerOnPrefix(prev, x + y, x);
    } else {
      assert (x + y)[1..] == x[1..] + y;
      BearerSplits(x[0], x[1..], y);
    }
  }

  predicate NoB(x: Text) { forall i | 0 <= i < |x| :: Lower(x[i]) != 'b' }

  lemma {:induction false} SkipNoB(prev: char, x: Text, y: Text)
    requires NoB(x) && HasMatch(BearerMatch, prev, x + y)
    ensures HasMatch(BearerMatch, After(prev, x), y)
    decreases |x|
  {
    hide BearerMatch;
    if x == "" {
      assert x + y == y;
    } else {
      if BearerMatch(prev, x + y).Some? {
        BearerPrefixIsPlain(prev, x + y);
      }
      assert (x + y)[1..] == x[1..] + y;
      SkipNoB(x[0], x[1..], y);
    }
  }

  // ---------------------------------------------------------------- the passes

  /** What follows a match of `m` does not start with `b`, unless the match ends in an `@`
      that is kept. */
  ghost predicate LeavesNoB(m: Matcher, keepsAt: bool) {
    forall prev, t | m(prev, t).Some? ::
      var sp := m(prev, t).value;
      if keepsAt then sp.end == sp.cut + 1 && t[sp.cut] == '@'
      else sp.end == sp.cut && (sp.end < |t| ==> Lower(t[sp.end]) != 'b')
  }

  lemma PatternsLeaveNoB()
    ensures LeavesNoB(BearerMatch, false) && LeavesNoB(KeyValueMatch, false) && LeavesNoB(UrlMatch, true)
  {
    forall prev, t | KeyValueMatch(prev, t).Some?
      ensures
        var sp := KeyValueMatch(prev, t).value;
        sp.end == sp.cut && (sp.end < |t| ==> Lower(t[sp.end]) != 'b')
    {
      var _, _, _ := KeyValueMatchHas(prev, t);
    }
    forall prev, t | UrlMatch(prev, t).Some?
      ensures var sp := UrlMatch(prev, t).value; sp.end == sp.cut + 1 && t[sp.cut] == '@'
    {
      var _ := UrlMatchHas(prev, t);
    }
  }

  /** The last character of the gap. */
  function GapEnd(keepsAt: bool): char { if keepsAt then '@' else ']' }

  lemma GapHasNoB(m: Matcher, keepsAt: bool, prev: char, t: Text)
    requires LeavesNoB(m, keepsAt) && m(prev, t).Some?
    ensures
      var gap := Gap(m(prev, t).value, t);
      NoB(gap) && gap[|gap| - 1] == GapEnd(keepsAt)
  {
    var sp := m(prev, t).value;
    assert t[sp.cut..sp.end] == if keepsAt then "@" else "";
  }

  /** A match in a rewritten text lies in the part kept before the marker, and so was in the
      input, or in the text behind. */
  lemma BearerAroundSpan(m: Matcher, keepsAt: bool, prev: char, prev': char, t: Text, rest: Text)
    requires LeavesNoB(m, keepsAt) && m(prev, t).Some?
    requires var sp := m(prev, t).value; HasMatch(BearerMatch, prev', t[..sp.keep] + Gap(sp, t) + rest)
    ensures HasMatch(BearerMatch, prev', t[..m(prev, t).value.keep]) || HasMatch(BearerMatch, GapEnd(keepsAt), rest)
  {
    var sp := m(prev, t).value;
    var kept, gap := t[..sp.keep], Gap(sp, t);
    assert kept + gap + rest == kept + (gap + rest);
    GapHasNoB(m, keepsAt, prev, t);
    BearerSplits(prev', kept, gap + rest);
    if !HasMatch(BearerMatch, prev', kept) {
      SkipNoB(After(prev', kept), gap, rest);
    }
  }

  lemma BearerBehindAt(t: Text, e: nat, prev': char)
    requires 0 < e <= |t| && t[e - 1] == '@' && HasMatch(BearerMatch, '@', t[e..])
    ensures HasMatch(BearerMatch, prev', t)
  {
    BearerInSuffix(prev', t[..e], t[e..]);
    assert t[..e] + t[e..] == t;
  }

  lemma BearerBehindOther(t: Text, e: nat, prev': char)
    requires 0 < e <= |t| && (e < |t| ==> Lower(t[e]) != 'b') && HasMatch(BearerMatch, ']', t[e..])
    ensures HasMatch(BearerMatch, prev', t)
  {
    var tail := t[e + 1..];
    assert t[e..] == [t[e]] + tail;
    SkipNoB(']', [t[e]], tail);
    BearerInSuffix(prev', t[..e + 1], tail);
    assert t[..e + 1] + tail == t;
  }

  lemma BearerFreeTail(m: Matcher, keepsAt: bool, prev: char, prev': char, t: Text)
    requires LeavesNoB(m, keepsAt) && m(prev, t).Some?
    requires HasMatch(BearerMatch, GapEnd(keepsAt), t[m(prev, t).value.end..])
    ensures HasMatch(BearerMatch, prev', t)
  {
    var e := m(prev, t).value.end;
    if keepsAt {
      BearerBehindAt(t, e, prev');
    } else {
      BearerBehindOther(t, e, prev');
    }
  }

  lemma BearerAfterCopy(m: Matcher, prev: char, prev': char, t: Text)
    requires t != "" && m(prev, t).None?
    requires HasMatch(BearerMatch, prev', Sub(m, prev, t))
    ensures BearerMatch(prev', t).Some? || HasMatch(BearerMatch, t[0], Sub(m, t[0], t[1..]))
  {
    var out := Sub(m, prev, t);
    assert out[0] == t[0] && out[1..] == Sub(m, t[0], t[1..]);
    if BearerMatch(prev', out).Some? {
      BearerHeadWasThere(m, prev, prev', t);
    }
  }

  /** If the rest of the text gained no match, neither did the whole. */
  lemma BearerAcrossSpan(m: Matcher, keepsAt: bool, prev: char, prev': char, t: Text, rest: Text)
    requires LeavesNoB(m, keepsAt) && m(prev, t).Some?
    requires var sp := m(prev, t).value; HasMatch(BearerMatch, prev', t[..sp.keep] + Gap(sp, t) + rest)
    requires HasMatch(BearerMatch, GapEnd(keepsAt), rest) ==>
      HasMatch(BearerMatch, GapEnd(keepsAt), t[m(prev, t).value.end..])
    ensures HasMatch(BearerMatch, prev', t)
  {
    var k := m(prev, t).value.keep;
    BearerAroundSpan(m, keepsAt, prev, prev', t, rest);
    if HasMatch(BearerMatch, prev', t[..k]) {
      BearerExtends(prev', t[..k], t[k..]);
      assert t[..k] + t[k..] == t;
    } else {
      BearerFreeTail(m, keepsAt, prev, prev', t);
    }
  }

  /** Passes never create a bearer match. */
  lemma {:induction false} PassKeepsBearerFree(m: Matcher, keepsAt: bool, prev: char, prev': char, t: Text)
    requires LeavesNoB(m, keepsAt)
    requires HasMatch(BearerMatch, prev', Sub(m, prev, t))
    ensures HasMatch(BearerMatch, prev', t)
    decreases |t|
  {
    hide BearerMatch;
    hide LeavesNoB;
    if t == "" {
    } else if m(prev, t).None? {
      BearerAfterCopy(m, prev, prev', t);
      if BearerMatch(prev', t).None? {
        PassKeepsBearerFree(m, keepsAt, t[0], t[0], t[1..]);
      }
    } else {
      var e := m(prev, t).value.end;
      var rest := Sub(m, t[e - 1], t[e..]);
      if HasMatch(BearerMatch, GapEnd(keepsAt), rest) {
        PassKeepsBearerFree(m, keepsAt, t[e - 1], GapEnd(keepsAt), t[e..]);
      }
      BearerAcrossSpan(m, keepsAt, prev, prev', t, rest);
    }
  }

  lemma SameBoundary(prev: char, prev': char, t: Text)
    requires IsWord(prev) == IsWord(prev') || (t != "" ==> Lower(t[0]) != 'b')
    ensures BearerMatch(prev, t).Some? == BearerMatch(prev', t).Some?
  {
    if BearerMatch(prev, t).Some? { BearerPrefixIsPlain(prev, t); }
    if BearerMatch(prev', t).Some? { BearerPrefixIsPlain(prev', t); }
  }

  /** The word and the spaces a replaced token leaves in place are no match themselves. */
  lemma KeptBearerWord(prev: char, prev': char, t: Text)
    requires BearerMatch(prev, t).Some?
    ensures !HasMatch(BearerMatch, prev', t[..BearerMatch(prev, t).value.keep])
  {
    var kept := t[..BearerMatch(prev, t).value.keep];
    BearerMatchIffSpan(prev, t);
    BearerMatchIffSpan(prev', kept);
    forall i | 1 <= i < |kept|
      ensures Lower(kept[i]) != 'b'
    {
      if i < 6 {
        assert Lower(t[0 + i]) == BEARER[i];
      } else {
        assert In(SPACE, t[i]);
      }
    }
    if HasMatch(BearerMatch, prev', kept) {
      assert kept[1..] + "" == kept[1..];
      SkipNoB(kept[0], kept[1..], "");
    }
  }

  lemma ClearedSpan(prev: char, prev': char, t: Text, rest: Text)
    requires BearerMatch(prev, t).Some?
    requires !HasMatch(BearerMatch, ']', rest)
    ensures var sp := BearerMatch(prev, t).value; !HasMatch(BearerMatch, prev', t[..sp.keep] + Gap(sp, t) + rest)
  {
    var sp := BearerMatch(prev, t).value;
    if HasMatch(BearerMatch, prev', t[..sp.keep] + Gap(sp, t) + rest) {
      PatternsLeaveNoB();
      BearerAroundSpan(BearerMatch, false, prev, prev', t, rest);
      KeptBearerWord(prev, prev', t);
    }
  }

  lemma ClearedCopy(prev: char, prev': char, t: Text)
    requires IsWord(prev) == IsWord(prev') || (t != "" ==> Lower(t[0]) != 'b')
    requires t != "" && BearerMatch(prev, t).None?
    requires !HasMatch(BearerMatch, t[0], Sub(BearerMatch, t[0], t[1..]))
    ensures !HasMatch(BearerMatch, prev', Sub(BearerMatch, prev, t))
  {
    hide BearerMatch;
    SameBoundary(prev, prev', t);
    if HasMatch(BearerMatch, prev', Sub(BearerMatch, prev, t)) {
      BearerAfterCopy(BearerMatch, prev, prev', t);
    }
  }

  /** The first pass leaves no bearer match. */
  lemma {:induction false} FirstPassClears(prev: char, prev': char, t: Text)
    requires IsWord(prev) == IsWord(prev') || (t != "" ==> Lower(t[0]) != 'b')
    ensures !HasMatch(BearerMatch, prev', Sub(BearerMatch, prev, t))
    decreases |t|
  {
    hide BearerMatch;
    var r := BearerMatch(prev, t);
    if t == "" {
    } else if r.None? {
      FirstPassClears(t[0], t[0], t[1..]);
      ClearedCopy(prev, prev', t);
    } else {
      var e := r.value.end;
      PatternsLeaveNoB();
      FirstPassClears(t[e - 1], ']', t[e..]);
      ClearedSpan(prev, prev', t, Sub(BearerMatch, t[e - 1], t[e..]));
    }
  }

  /** `\b(bearer\s+)([a-z0-9._-]{8,})` matches nowhere in `t`. */
  ghost predicate BearerFree(t: Text) {
    forall i: nat, j: nat, k: nat | i <= |t| :: !BearerSpan(Before(START, t, i), t[i..], j, k)
  }

  lemma {:induction false} NoBearerAt(prev: char, t: Text, i: nat)
    requires !HasMatch(BearerMatch, prev, t) && i <= |t|
    ensures BearerMatch(Before(prev, t, i), t[i..]).None?
    decreases i
  {
    if i > 0 {
      NoBearerAt(t[0], t[1..], i - 1);
      assert t[1..][i - 1..] == t[i..];
    } else {
      assert t[0..] == t;
    }
  }

  lemma NoBearerIsFree(t: Text)
    requires !HasMatch(BearerMatch, START, t)
    ensures BearerFree(t)
  {
    forall i: nat, j: nat, k: nat | i <= |t|
      ensures !BearerSpan(Before(START, t, i), t[i..], j, k)
    {
      NoBearerAt(START, t, i);
      BearerMatchIffSpan(Before(START, t, i), t[i..]);
    }
  }

  /** Whatever the input, the three passes in a row leave a text with no bearer match. */
  lemma ThreePassesLeaveNoBearer(t: Text)
    ensures BearerFree(Sub(UrlMatch, START, Sub(KeyValueMatch, START, Sub(BearerMatch, START, t))))
  {
    var t1 := Sub(BearerMatch, START, t);
    var t2 := Sub(KeyValueMatch, START, t1);
    var t3 := Sub(UrlMatch, START, t2);
    FirstPassClears(START, START, t);
    PatternsLeaveNoB();
    if HasMatch(BearerMatch, START, t3) {
      PassKeepsBearerFree(UrlMatch, true, START, START, t2);
      PassKeepsBearerFree(KeyValueMatch, false, START, START, t1);
    }
    NoBearerIsFree(t3);
  }
}
