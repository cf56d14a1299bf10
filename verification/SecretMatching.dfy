/** The matchers find exactly the matches the patterns describe, greedily. */
module SecretMatching {
  import opened Options
  import opened SecretPatterns

  lemma BearerMatchIffSpan(prev: char, t: Text)
    ensures BearerMatch(prev, t).Some? ==>
              BearerSpan(prev, t, BearerMatch(prev, t).value.keep, BearerMatch(prev, t).value.cut)
    ensures forall j: nat, k: nat | BearerSpan(prev, t, j, k) ::
              && BearerMatch(prev, t).Some?
              && BearerMatch(prev, t).value.keep == j && k <= BearerMatch(prev, t).value.cut
  {
    forall j: nat, k: nat | BearerSpan(prev, t, j, k)
      ensures BearerMatch(prev, t).Some? && BearerMatch(prev, t).value.keep == j && k <= BearerMatch(prev, t).value.cut
    {
      assert In(TOKEN, t[j]);
      assert RunTo(SPACE, t, 6) == j;
    }
  }

  /** The characters key names are made of: none of them can start a delimiter. */
  predicate IsKeyChar(c: char) { IsAlnum(c) || IsSeparator(c) }

  lemma LettersAt(w: Text, t: Text, i: nat)
    requires CiAt(w, t, i) && PlainWord(w)
    ensures forall x | i <= x < i + |w| :: IsLetter(t[x])
    ensures Lower(t[i]) != 'r'
  {
    forall x | i <= x < i + |w|
      ensures IsLetter(t[x])
    {
      assert Lower(t[i + (x - i)]) == w[x - i];
    }
    assert Lower(t[i + 0]) == w[0];
  }

  lemma {:induction false} KeyNameChars(words: seq<Text>, t: Text, i: nat)
    requires forall w | w in words :: PlainWord(w)
    requires i <= |t| && KeyEnd(words, t, i).Some?
    ensures forall x | i <= x < KeyEnd(words, t, i).value :: IsKeyChar(t[x])
    ensures words != [] ==> i < KeyEnd(words, t, i).value && IsLetter(t[i]) && Lower(t[i]) != 'r'
  {
    if words != [] {
      LettersAt(words[0], t, i);
      var n := i + |words[0]|;
      KeyNameChars(words[1..], t, if |words| > 1 && n < |t| && IsSeparator(t[n]) then n + 1 else n);
    }
  }

  lemma KeywordsNonEmpty(ws: seq<Word>)
    requires ws in KEYWORDS
    ensures ws != []
  {
  }

  lemma DelimiterStart(t: Text, i: nat)
    requires i <= |t| && DelimitedValue(t, i).Some?
    ensures i < |t| && !IsKeyChar(t[i])
  {
  }

  lemma DelimitedValueIs(t: Text, i: nat, a: nat, b: nat, c: nat)
    requires i <= a < b < c <= |t|
    requires All(SPACE, t, i, a) && IsDelimiter(t[a]) && All(SPACE, t, a + 1, b) && All(VALUE, t, b, c)
    ensures DelimitedValue(t, i).Some?
    ensures DelimitedValue(t, i).value.0 == b && c <= DelimitedValue(t, i).value.1
    ensures c == |t| || !In(VALUE, t[c]) ==> DelimitedValue(t, i).value.1 == c
  {
    assert RunTo(SPACE, t, i) == a;
    assert In(VALUE, t[b]);
    assert RunTo(SPACE, t, a + 1) == b;
  }

  lemma {:induction false} KeywordMatchFinds(names: seq<seq<Word>>, t: Text) returns (ws: seq<Word>, e: nat)
    requires KeywordMatch(names, t).Some?
    ensures ws in names && KeyEnd(Spelled(ws), t, 0) == Some(e) && DelimitedValue(t, e).Some?
    ensures var (b, c) := DelimitedValue(t, e).value; KeywordMatch(names, t).value == Span(b, c, c)
  {
    var k := KeyEnd(Spelled(names[0]), t, 0);
    if k.Some? && DelimitedValue(t, k.value).Some? {
      ws, e := names[0], k.value;
    } else {
      ws, e := KeywordMatchFinds(names[1..], t);
    }
  }

  lemma {:induction false} KeywordMatchComplete(names: seq<seq<Word>>, t: Text, ws: seq<Word>)
    requires ws in names && KeyEnd(Spelled(ws), t, 0).Some?
    requires DelimitedValue(t, KeyEnd(Spelled(ws), t, 0).value).Some?
    ensures KeywordMatch(names, t).Some?
  {
    if ws != names[0] {
      KeywordMatchComplete(names[1..], t, ws);
    }
  }

  /** Two key names that both have a delimiter behind them at the head of a text end at the
      same place, so the order of the alternatives does not matter. */
  lemma KeyEndsAgree(t: Text, vs: seq<Word>, ws: seq<Word>, e: nat, f: nat)
    requires KeyEnd(Spelled(vs), t, 0) == Some(e) && DelimitedValue(t, e).Some?
    requires KeyEnd(Spelled(ws), t, 0) == Some(f) && DelimitedValue(t, f).Some?
    ensures e == f
  {
    KeyNameChars(Spelled(vs), t, 0);
    KeyNameChars(Spelled(ws), t, 0);
    DelimiterStart(t, e);
    DelimiterStart(t, f);
  }

  lemma KeyValueMatchHas(prev: char, t: Text) returns (ws: seq<Word>, e: nat, a: nat)
    requires KeyValueMatch(prev, t).Some?
    ensures
      var sp := KeyValueMatch(prev, t).value;
      && KeyValueSpan(prev, t, ws, e, a, sp.keep, sp.cut)
      && sp.end == sp.cut && (sp.cut == |t| || !In(VALUE, t[sp.cut]))
  {
    ws, e := KeywordMatchFinds(KEYWORDS, t);
    a := RunTo(SPACE, t, e);
  }

  lemma KeyValueMatchIs(prev: char, t: Text, ws: seq<Word>, e: nat, a: nat, b: nat, c: nat)
    requires KeyValueSpan(prev, t, ws, e, a, b, c)
    ensures KeyValueMatch(prev, t).Some?
    ensures KeyValueMatch(prev, t).value.keep == b && c <= KeyValueMatch(prev, t).value.cut
    ensures c == |t| || !In(VALUE, t[c]) ==> KeyValueMatch(prev, t).value.cut == c
  {
    DelimitedValueIs(t, e, a, b, c);
    KeywordMatchComplete(KEYWORDS, t, ws);
    var vs, f := KeywordMatchFinds(KEYWORDS, t);
    KeyEndsAgree(t, vs, ws, f, e);
  }

  lemma UrlMatchIs(prev: char, t: Text, a: nat, c: nat, d: nat)
    requires UrlSpan(prev, t, a, c, d)
    ensures UrlMatch(prev, t) == Some(Span(c, d, d + 1))
  {
    assert RunTo(SCHEME, t, 1) == a;
    assert RunTo(USER, t, a + 3) == c - 1;
    assert RunTo(PLAIN, t, c) == d;
  }

  lemma UrlMatchHas(prev: char, t: Text) returns (a: nat)
    requires UrlMatch(prev, t).Some?
    ensures
      var sp := UrlMatch(prev, t).value;
      UrlSpan(prev, t, a, sp.keep, sp.cut) && sp.end == sp.cut + 1
  {
    a := RunTo(SCHEME, t, 1);
  }
}
