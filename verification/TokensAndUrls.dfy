/** What comes back for a text that holds one bearer token or one URL credential, character by
    character. The characters are written out here and not taken from the patterns. */
module TokensAndUrls {
  import opened Options
  import opened SecretPatterns
  import opened SecretMatching
  import opened BearerSafety
  import opened MarkedSecrets
  import opened Redactor
  import opened NamedValues

  predicate Letter(c: char) { 'a' <= c <= 'z' || 'A' <= c <= 'Z' }
  predicate Digit(c: char) { '0' <= c <= '9' }
  predicate TokenChar(c: char) { Letter(c) || Digit(c) || c == '.' || c == '_' || c == '-' }

  // ---------------------------------------------------------------- a bearer token

  /** `bearer token`: the word in any letter case at `i`, spaces up to `j`, token characters
      up to `k`. There is no letter before it, no token character behind it and no delimiter
      anywhere. */
  ghost predicate Bears(t: Text, i: nat, j: nat, k: nat) {
    && i + 6 < j <= k <= |t|
    && (forall x | 0 <= x < i :: !Letter(t[x])) && SameWord(t[i..i + 6], "bearer")
    && (forall x | i + 6 <= x < j :: White(t[x])) && (forall x | j <= x < k :: TokenChar(t[x]))
    && (forall x | k <= x < |t| :: !TokenChar(t[x]))
    && (forall x | 0 <= x < |t| :: t[x] != '=' && t[x] != ':')
  }

  lemma SixLetters(t: Text, i: nat)
    requires i + 6 <= |t|
    ensures SameWord(t[i..i + 6], "bearer") <==> CiAt(BEARER, t[i..], 0)
  {
    var u, w := t[i..], t[i..i + 6];
    assert |w| == 6 && forall x | 0 <= x < 6 :: u[x] == w[x];
    assert w[0] == u[0 + 0] && w[1] == u[0 + 1] && w[2] == u[0 + 2];
    assert w[3] == u[0 + 3] && w[4] == u[0 + 4] && w[5] == u[0 + 5];
  }

  lemma BearerStart(prev: char, t: Text, x: nat)
    requires x < |t| && BearerMatch(prev, t[x..]).Some?
    ensures Letter(t[x])
  {
    var u := t[x..];
    assert Lower(u[0 + 0]) == BEARER[0];
  }

  /** The only place the pattern can match. */
  lemma BearsAt(prev: char, t: Text, i: nat, j: nat, k: nat, x: nat)
    requires Bears(t, i, j, k) && x < |t| && BearerMatch(prev, t[x..]).Some?
    ensures x == i
  {
    BearerStart(prev, t, x);
    var q := BearerNeeds(prev, t, x);
    assert White(t[x + 6]);
    assert forall y | i <= y < i + 6 :: t[y] == t[i..i + 6][y - i];
  }

  lemma RunIs(c: Class, t: Text, i: nat, j: nat)
    requires i <= j <= |t| && All(c, t, i, j) && (j == |t| || !In(c, t[j]))
    ensures RunTo(c, t, i) == j
  {
  }

  lemma BearsHere(prev: char, t: Text, i: nat, j: nat, k: nat)
    requires Bears(t, i, j, k)
    ensures BearerMatch(prev, t[i..]) ==
            if !IsWord(prev) && j + 8 <= k then Some(Span(j - i, k - i, k - i)) else None
  {
    var u := t[i..];
    SixLetters(t, i);
    assert forall x | 0 <= x < |u| :: u[x] == t[i + x];
    assert forall x | 6 <= x < j - i :: White(u[x]);
    assert forall x | j - i <= x < k - i :: TokenChar(u[x]);
    assert forall x | k - i <= x < |u| :: !TokenChar(u[x]);
    if j < k {
      RunIs(SPACE, u, 6, j - i);
      RunIs(TOKEN, u, j - i, k - i);
    } else {
      RunIs(TOKEN, u, RunTo(SPACE, u, 6), RunTo(SPACE, u, 6));
    }
  }

  /** A pass copies what comes before its first match. */
  lemma {:induction false} CopiesUpTo(m: Matcher, prev: char, t: Text, i: nat)
    requires i <= |t| && forall x | 0 <= x < i :: m(Before(prev, t, x), t[x..]).None?
    ensures Sub(m, prev, t) == t[..i] + Sub(m, Before(prev, t, i), t[i..])
    decreases i
  {
    assert t[0..] == t;
    if i > 0 {
      assert m(Before(prev, t, 0), t[0..]).None?;
      forall x | 0 <= x < i
        ensures m(Before(t[0], t[1..], x), t[1..][x..]) == m(Before(prev, t, x + 1), t[x + 1..])
      {
        assert t[1..][x..] == t[x + 1..];
      }
      CopiesUpTo(m, t[0], t[1..], i - 1);
      assert t[1..][i - 1..] == t[i..] && [t[0]] + t[1..][..i - 1] == t[..i];
    }
  }

  lemma Within(t: Text, i: nat, c: nat, d: nat, e: nat)
    requires i < c < d <= e <= |t|
    ensures var u := t[i..];
            && u[..c - i] == t[i..c] && u[d - i..e - i] == t[d..e] && u[e - i..] == t[e..] && u[e - i - 1] == t[e - 1]
  {
  }

  lemma MatchAt(m: Matcher, prev: char, t: Text, i: nat, c: nat, d: nat, e: nat)
    requires i < c < d <= e <= |t| && m(prev, t[i..]) == Some(Span(c - i, d - i, e - i))
    ensures Sub(m, prev, t[i..]) == t[i..c] + (MARK + t[d..e]) + Sub(m, t[e - 1], t[e..])
  {
    hide Sub;
    hide MARK;
    Within(t, i, c, d, e);
    SubOfMatch(m, prev, t[i..]);
  }

  lemma Glue(t: Text, i: nat, j: nat, sub: Text, z: Text, w: Text)
    requires i <= j <= |t| && sub == t[i..j] + z + w
    ensures t[..i] + sub == t[..j] + z + w
  {
    assert t[..i] + t[i..j] == t[..j];
  }

  /** A pass up to and with its first match. */
  lemma FirstMatch(m: Matcher, prev: char, at: char, t: Text, i: nat, c: nat, d: nat, e: nat)
    requires i < c < d <= e <= |t| && m(at, t[i..]) == Some(Span(c - i, d - i, e - i))
    requires Sub(m, prev, t) == t[..i] + Sub(m, at, t[i..])
    ensures Sub(m, prev, t) == t[..c] + (MARK + t[d..e]) + Sub(m, t[e - 1], t[e..])
  {
    MatchAt(m, at, t, i, c, d, e);
    hide Sub;
    hide MARK;
    Glue(t, i, c, Sub(m, at, t[i..]), MARK + t[d..e], Sub(m, t[e - 1], t[e..]));
  }

  lemma NoDelimiterNothingElse(t: Text)
    requires forall x | 0 <= x < |t| :: t[x] != '=' && t[x] != ':'
    ensures Sub(UrlMatch, START, Sub(KeyValueMatch, START, t)) == t
  {
    hide Sub;
    hide KeyValueMatch;
    forall x | 0 <= x < |t|
      ensures KeyValueMatch(Before(START, t, x), t[x..]).None?
    {
      if KeyValueMatch(Before(START, t, x), t[x..]).Some? {
        var q := DelimiterAhead(Before(START, t, x), t, x);
      }
    }
    NoneAnywhere(KeyValueMatch, START, t);
    NothingToRewrite(KeyValueMatch, START, t);
    OneColonNoUrl(t, 0);
  }

  lemma BearerPass(t: Text, i: nat, j: nat, k: nat)
    requires Bears(t, i, j, k)
    ensures Sub(BearerMatch, START, t) ==
            if (i == 0 || !(Digit(t[i - 1]) || t[i - 1] == '_')) && j + 8 <= k then t[..j] + MARK + t[k..] else t
  {
    hide Sub;
    BearsHere(Before(START, t, i), t, i, j, k);
    hide BearerMatch;
    forall x | 0 <= x < |t| && x != i
      ensures BearerMatch(Before(START, t, x), t[x..]).None?
    {
      if BearerMatch(Before(START, t, x), t[x..]).Some? { BearsAt(Before(START, t, x), t, i, j, k, x); }
    }
    if BearerMatch(Before(START, t, i), t[i..]).Some? {
      CopiesUpTo(BearerMatch, START, t, i);
      FirstMatch(BearerMatch, START, Before(START, t, i), t, i, j, k, k);
      NoLetterBehind(t[k - 1], t[k..]);
      assert t[k..k] == "" && MARK + "" == MARK;
    } else {
      NoneAnywhere(BearerMatch, START, t);
      NothingToRewrite(BearerMatch, START, t);
    }
  }

  lemma NoLetterBehind(prev: char, t: Text)
    requires forall x | 0 <= x < |t| :: !TokenChar(t[x])
    ensures Sub(BearerMatch, prev, t) == t
  {
    hide Sub;
    hide BearerMatch;
    forall x | 0 <= x < |t|
      ensures BearerMatch(Before(prev, t, x), t[x..]).None?
    {
      if BearerMatch(Before(prev, t, x), t[x..]).Some? { BearerStart(Before(prev, t, x), t, x); }
    }
    NoneAnywhere(BearerMatch, prev, t);
    NothingToRewrite(BearerMatch, prev, t);
  }

  /** A bearer token is masked exactly if it has eight characters and the word is not the end
      of a longer one. */
  lemma TokenIsMaskedIff(t: Text, i: nat, j: nat, k: nat)
    requires Bears(t, i, j, k)
    ensures Redacted(t) ==
            if (i == 0 || !(Digit(t[i - 1]) || t[i - 1] == '_')) && j + 8 <= k then
              t[..j] + "[REDACTED]" + t[k..]
            else t
  {
    hide Sub;
    hide HasAnchor;
    FullPathIs(t);
    hide FullPath;
    SixLetters(t, i);
    assert ANCHORS[0] == BEARER;
    AnchorIsShown(BEARER, t, i);
    BearerPass(t, i, j, k);
    NoDelimiterNothingElse(Sub(BearerMatch, START, t));
  }

  // ---------------------------------------------------------------- a URL credential

  /** `scheme://user:secret@`: the scheme is `t[i..a]`, the user `t[a+3..c-1]`, possibly
      empty, and the secret `t[c..d]`. No colon stands before the scheme's, nor a letter,
      digit or `_` right before the scheme. */
  ghost predicate Credentials(t: Text, i: nat, a: nat, c: nat, d: nat) {
    && i < a && a + 4 <= c <= d < |t|
    && (forall x | 0 <= x < i :: t[x] != ':') && (i == 0 || !(Letter(t[i - 1]) || Digit(t[i - 1]) || t[i - 1] == '_'))
    && Letter(t[i])
    && (forall x | i <= x < a :: Letter(t[x]) || Digit(t[x]) || t[x] == '+' || t[x] == '.' || t[x] == '-')
    && t[a] == ':' && t[a + 1] == '/' && t[a + 2] == '/'
    && (forall x | a + 3 <= x < c - 1 :: !White(t[x]) && t[x] != ':' && t[x] != '/' && t[x] != '@')
    && t[c - 1] == ':'
    && (forall x | c <= x < d :: !White(t[x]) && t[x] != '@') && t[d] == '@'
  }

  lemma SpanHere(prev: char, t: Text, i: nat, a: nat, c: nat, d: nat, x: nat)
    requires Credentials(t, i, a, c, d) && c < d && x <= i
    requires UrlMatch(prev, t[x..]).Some?
    ensures UrlMatch(prev, t[x..]) == Some(Span(c - x, d - x, d + 1 - x))
  {
    var u := t[x..];
    var f := UrlMatchHas(prev, u);
    assert forall y | 0 <= y < |u| :: u[y] == t[x + y];
    assert u[f] == ':' && f >= a - x;
    assert !In(SCHEME, u[a - x]);
    assert f == a - x;
    assert UrlSpan(prev, u, a - x, c - x, d - x);
    UrlMatchIs(prev, u, a - x, c - x, d - x);
  }

  /** Nowhere do spaces or a delimiter follow one of the names, nor spaces the word bearer. */
  ghost predicate NothingElse(t: Text) {
    && (forall x, y | 0 <= x < y < |t| && Named(t[x..y]) :: !White(t[y]) && t[y] != '=' && t[y] != ':')
    && (forall x, y | 0 <= x && y == x + 6 < |t| && SameWord(t[x..y], "bearer") :: !White(t[y]))
  }

  ghost predicate NoUrlBehind(t: Text, d: nat) {
    forall x, y | d <= x && y == x + 3 <= |t| :: t[x..y] != "://"
  }

  lemma NothingElseNoValue(t: Text, x: nat)
    requires NothingElse(t) && x < |t|
    ensures KeyValueMatch(Before(START, t, x), t[x..]).None?
  {
    hide Named;
    hide KeyValueMatch;
    if KeyValueMatch(Before(START, t, x), t[x..]).Some? {
      var f := NameThenWhite(Before(START, t, x), t, x);
    }
  }

  lemma NameThenWhite(prev: char, t: Text, x: nat) returns (y: nat)
    requires x < |t| && KeyValueMatch(prev, t[x..]).Some?
    ensures x < y < |t| && Named(t[x..y]) && (White(t[y]) || t[y] == '=' || t[y] == ':')
  {
    var u := t[x..];
    var ws, f, d := KeyValueMatchHas(prev, u);
    hide KeyValueMatch;
    hide Named;
    var sp := KeyValueMatch(prev, u).value;
    WhiteBehindName(prev, u, ws, f, d, sp.keep, sp.cut);
    NameEndsAt(u, f);
    hide *;
    y := x + f;
    assert u[..f] == t[x..y] && u[f] == t[y];
  }

  lemma WhiteBehindName(prev: char, u: Text, ws: seq<Word>, f: nat, d: nat, k: nat, l: nat)
    requires KeyValueSpan(prev, u, ws, f, d, k, l)
    ensures 0 < f < |u| && (White(u[f]) || u[f] == '=' || u[f] == ':')
  {
    KeyNameChars(Spelled(ws), u, 0);
    KeywordsNonEmpty(ws);
    hide KeyEnd;
    hide Spelled;
    hide KEYWORDS;
    Classes();
    assert In(SPACE, u[f]) || IsDelimiter(u[f]);
  }

  lemma NothingElseNoBearer(t: Text, x: nat)
    requires NothingElse(t) && x < |t|
    ensures BearerMatch(Before(START, t, x), t[x..]).None?
  {
    if BearerMatch(Before(START, t, x), t[x..]).Some? {
      var q := BearerNeeds(Before(START, t, x), t, x);
      SixLetters(t, x);
    }
  }

  lemma {:induction false} Least(m: Matcher, prev: char, t: Text, i: nat) returns (x: nat)
    requires i < |t| && m(Before(prev, t, i), t[i..]).Some?
    ensures x <= i && m(Before(prev, t, x), t[x..]).Some?
    ensures forall y | 0 <= y < x :: m(Before(prev, t, y), t[y..]).None?
    decreases i
  {
    if y :| 0 <= y < i && m(Before(prev, t, y), t[y..]).Some? {
      x := Least(m, prev, t, y);
    } else {
      x := i;
    }
  }

  lemma NoUrlInTail(prev: char, t: Text, d: nat)
    requires d <= |t| && NoUrlBehind(t, d)
    ensures Sub(UrlMatch, prev, t[d..]) == t[d..]
  {
    var u := t[d..];
    hide Sub;
    forall x | 0 <= x < |u|
      ensures UrlMatch(Before(prev, u, x), u[x..]).None?
    {
      NoSchemeNoUrl(Before(prev, u, x), t, d + x, d);
      assert u[x..] == t[d + x..];
    }
    hide UrlMatch;
    NoneAnywhere(UrlMatch, prev, u);
    NothingToRewrite(UrlMatch, prev, u);
  }

  lemma NoSchemeNoUrl(prev: char, t: Text, x: nat, d: nat)
    requires d <= x < |t| && NoUrlBehind(t, d)
    ensures UrlMatch(prev, t[x..]).None?
  {
    hide UrlMatch;
    if UrlMatch(prev, t[x..]).Some? {
      var s := SchemeAhead(prev, t, x);
    }
  }

  lemma SchemeAhead(prev: char, t: Text, x: nat) returns (s: nat)
    requires x < |t| && UrlMatch(prev, t[x..]).Some?
    ensures x <= s && s + 3 <= |t| && t[s..s + 3] == "://"
  {
    var u := t[x..];
    var f := UrlMatchHas(prev, u);
    s := x + f;
    assert u[f] == t[s] && u[f + 1] == t[s + 1] && u[f + 2] == t[s + 2];
  }

  lemma CredentialHere(t: Text, i: nat, a: nat, c: nat, d: nat)
    requires Credentials(t, i, a, c, d) && c < d
    ensures UrlMatch(Before(START, t, i), t[i..]).Some?
  {
    var prev, u := Before(START, t, i), t[i..];
    assert !IsWord(prev);
    hide UrlMatch;
    hide Before;
    assert forall y | 0 <= y < |u| :: u[y] == t[i + y];
    assert All(SCHEME, u, 1, a - i) && All(USER, u, a - i + 3, c - i - 1) && All(PLAIN, u, c - i, d - i);
    hide All;
    assert SchemeEnds(u, a - i);
    UrlMatchIs(prev, u, a - i, c - i, d - i);
  }

  /** The first match of the URL pattern, which may begin before the scheme does, has this secret. */
  lemma FirstUrl(t: Text, i: nat, a: nat, c: nat, d: nat) returns (x: nat, at: char)
    requires Credentials(t, i, a, c, d) && c < d
    ensures x < c && UrlMatch(at, t[x..]) == Some(Span(c - x, d - x, d + 1 - x))
    ensures Sub(UrlMatch, START, t) == t[..x] + Sub(UrlMatch, at, t[x..])
  {
    CredentialHere(t, i, a, c, d);
    hide Sub;
    hide UrlMatch;
    x := Least(UrlMatch, START, t, i);
    at := Before(START, t, x);
    SpanHere(at, t, i, a, c, d, x);
    CopiesUpTo(UrlMatch, START, t, x);
  }

  lemma UrlPass(t: Text, i: nat, a: nat, c: nat, d: nat)
    requires Credentials(t, i, a, c, d) && NoUrlBehind(t, d + 1) && c < d
    ensures Sub(UrlMatch, START, t) == t[..c] + MARK + t[d..]
  {
    hide NoUrlBehind;
    hide Sub;
    hide UrlMatch;
    hide MARK;
    var x, at := FirstUrl(t, i, a, c, d);
    hide Credentials;
    NoUrlInTail(t[d], t, d + 1);
    PassFrom(UrlMatch, at, t, c, d, x);
  }

  lemma PassFrom(m: Matcher, at: char, t: Text, c: nat, d: nat, x: nat)
    requires x < c < d < |t| && m(at, t[x..]) == Some(Span(c - x, d - x, d + 1 - x))
    requires Sub(m, START, t) == t[..x] + Sub(m, at, t[x..])
    requires Sub(m, t[d], t[d + 1..]) == t[d + 1..]
    ensures Sub(m, START, t) == t[..c] + MARK + t[d..]
  {
    hide *;
    FirstMatch(m, START, at, t, x, c, d, d + 1);
    Tail(t, c, d);
  }

  lemma Tail(t: Text, c: nat, d: nat)
    requires c <= d < |t|
    ensures t[..c] + (MARK + t[d..d + 1]) + t[d + 1..] == t[..c] + MARK + t[d..]
  {
    assert t[d..d + 1] + t[d + 1..] == t[d..];
  }

  lemma EmptySecret(t: Text, i: nat, a: nat, c: nat, x: nat)
    requires Credentials(t, i, a, c, c) && NoUrlBehind(t, c + 1) && x < |t|
    ensures UrlMatch(Before(START, t, x), t[x..]).None?
  {
    hide UrlMatch;
    if UrlMatch(Before(START, t, x), t[x..]).Some? {
      var s := OtherScheme(Before(START, t, x), t, i, a, c, x);
    }
  }

  /** If the secret is empty, any match has another scheme. */
  lemma OtherScheme(prev: char, t: Text, i: nat, a: nat, c: nat, x: nat) returns (s: nat)
    requires Credentials(t, i, a, c, c) && x < |t| && UrlMatch(prev, t[x..]).Some?
    ensures c + 1 <= s && s + 3 <= |t| && t[s..s + 3] == "://"
  {
    var u := t[x..];
    var f := UrlMatchHas(prev, u);
    var k := UrlMatch(prev, u).value.keep;
    hide UrlMatch;
    assert forall y | 0 <= y < |u| :: u[y] == t[x + y];
    assert u[f] == ':' && u[f + 1] == '/' && u[f + 2] == '/';
    s := x + f;
    assert s == a || s > c;
    assert u[k - 1] == ':' && In(PLAIN, u[k]);
    assert t[s..s + 3] == [t[s], t[s + 1], t[s + 2]];
  }

  lemma UrlPassIsAll(t: Text)
    requires NothingElse(t)
    ensures FullPath(t) == Sub(UrlMatch, START, t)
  {
    hide Sub;
    hide BearerMatch;
    hide KeyValueMatch;
    FullPathIs(t);
    hide FullPath;
    forall x | 0 <= x < |t| ensures BearerMatch(Before(START, t, x), t[x..]).None? { NothingElseNoBearer(t, x); }
    NoneAnywhere(BearerMatch, START, t);
    NothingToRewrite(BearerMatch, START, t);
    forall x | 0 <= x < |t| ensures KeyValueMatch(Before(START, t, x), t[x..]).None? { NothingElseNoValue(t, x); }
    NoneAnywhere(KeyValueMatch, START, t);
    NothingToRewrite(KeyValueMatch, START, t);
  }

  /** The secret of a URL credential is masked exactly if it is not empty, with the user
      before it and without. */
  lemma CredentialIsMasked(t: Text, i: nat, a: nat, c: nat, d: nat)
    requires Credentials(t, i, a, c, d) && NothingElse(t) && NoUrlBehind(t, d + 1)
    ensures Redacted(t) == if c < d then t[..c] + "[REDACTED]" + t[d..] else t
  {
    hide NoUrlBehind;
    hide Sub;
    hide HasAnchor;
    hide UrlMatch;
    SchemeEndShows(t, a);
    UrlPassIsAll(t);
    hide FullPath;
    hide NothingElse;
    if c < d {
      UrlPass(t, i, a, c, d);
    } else {
      forall x | 0 <= x < |t| ensures UrlMatch(Before(START, t, x), t[x..]).None? { EmptySecret(t, i, a, c, x); }
      NoneAnywhere(UrlMatch, START, t);
      NothingToRewrite(UrlMatch, START, t);
    }
  }
}
