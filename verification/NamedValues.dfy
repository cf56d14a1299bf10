/** What comes back for a text that gives a value to a name, character by character. The names,
    the delimiters and the characters are written out here and not taken from the patterns. */
module NamedValues {
  import opened Options
  import opened SecretPatterns
  import opened SecretMatching
  import opened BearerSafety
  import opened MarkedSecrets
  import opened KeyValueSafety
  import opened Redactor

  // ---------------------------------------------------------------- the names

  /** What may stand between two words of a name. */
  predicate Joins(s: Text) { s == "" || s == "_" || s == "-" }

  /** Two or three words in a row, each two joined by a separator or by nothing. */
  ghost predicate TwoWords(x: Text, y: Text, w: Text) { exists s | Joins(s) :: w == x + s + y }
  ghost predicate ThreeWords(x: Text, y: Text, z: Text, w: Text) {
    exists r, s | Joins(r) && Joins(s) :: w == x + r + (y + s + z)
  }

  /** The names a value may be given to, in lower case. */
  ghost predicate IsName(w: Text) {
    || w == "password" || w == "passwd" || w == "pwd" || w == "secret"
    || w == "token" || w == "authorization" || w == "credential"
    || TwoWords("secret", "key", w) || TwoWords("access", "key", w)
    || TwoWords("private", "key", w) || TwoWords("api", "key", w)
    || ThreeWords("secret", "access", "key", w) || ThreeWords("access", "key", "id", w)
  }

  /** `n` is `w` with some letters in upper case. */
  predicate SameWord(n: Text, w: Text) {
    && |n| == |w|
    && forall k | 0 <= k < |w| :: n[k] == w[k] || ('a' <= w[k] <= 'z' && n[k] as int + 32 == w[k] as int)
  }

  ghost predicate Named(n: Text) { exists w :: IsName(w) && SameWord(n, w) }

  /** The words in a row, each two joined by a separator or by nothing. */
  ghost predicate IsForm(words: seq<Text>, f: Text)
    requires words != []
  {
    if |words| == 1 then f == words[0] else
      exists s, rest :: Joins(s) && IsForm(words[1..], rest) && f == words[0] + s + rest
  }

  lemma LowerParts(t: Text, i: nat, j: nat, k: nat, e: nat)
    requires i <= j <= k <= e <= |t|
    ensures LowerText(t[i..e]) == LowerText(t[i..j]) + LowerText(t[j..k]) + LowerText(t[k..e])
  {
  }

  lemma CiAtIs(w: Text, t: Text, i: nat)
    requires i + |w| <= |t|
    ensures CiAt(w, t, i) <==> LowerText(t[i..i + |w|]) == w
  {
    var l := LowerText(t[i..i + |w|]);
    assert forall x | 0 <= x < |w| :: l[x] == Lower(t[i + x]);
  }

  lemma FormStarts(words: seq<Text>, f: Text)
    requires words != [] && PlainWord(words[0]) && IsForm(words, f)
    ensures f != "" && 'a' <= f[0] <= 'z'
  {
    var w := words[0];
    if |words| > 1 {
      var s, rest :| Joins(s) && IsForm(words[1..], rest) && f == w + s + rest;
      assert f[0] == w[0];
    }
  }

  lemma {:induction false} KeyEndIsForm(words: seq<Text>, t: Text, i: nat, e: nat)
    requires words != [] && (forall w | w in words :: PlainWord(w))
    requires i <= |t| && KeyEnd(words, t, i) == Some(e)
    ensures IsForm(words, LowerText(t[i..e]))
  {
    var w := words[0];
    var n := i + |w|;
    CiAtIs(w, t, i);
    if |words| == 1 {
      assert KeyEnd(words[1..], t, n) == Some(n);
    } else {
      var k := if n < |t| && IsSeparator(t[n]) then n + 1 else n;
      KeyEndIsForm(words[1..], t, k, e);
      LowerParts(t, i, n, k, e);
      assert Joins(LowerText(t[n..k])) by {
        assert k == n ==> t[n..k] == "";
        assert k == n + 1 ==> t[n..k] == [t[n]] && LowerText(t[n..k]) == t[n..k];
      }
    }
  }

  lemma SameParts(x: Text, y: Text, z: Text, u: Text, v: Text, w: Text)
    requires |x| == |u| && |y| == |v| && x + y + z == u + v + w
    ensures x == u && y == v && z == w
  {
    assert x == (x + y + z)[..|x|] == u;
    assert y == (x + y + z)[|x|..|x| + |y|] == v;
    assert z == (x + y + z)[|x| + |y|..] == w;
  }

  lemma TakeApart(w: Text, s: Text, rest: Text, t: Text, i: nat, e: nat)
    requires i <= e <= |t| && LowerText(t[i..e]) == w + s + rest
    ensures var n := i + |w|; var k := n + |s|;
            && k <= e && LowerText(t[i..n]) == w && LowerText(t[n..k]) == s && LowerText(t[k..e]) == rest
  {
    var n := i + |w|;
    var k := n + |s|;
    assert |t[i..e]| == |w| + |s| + |rest|;
    LowerParts(t, i, n, k, e);
    SameParts(LowerText(t[i..n]), LowerText(t[n..k]), LowerText(t[k..e]), w, s, rest);
  }

  lemma {:induction false} FormIsKeyEnd(words: seq<Text>, t: Text, i: nat, e: nat)
    requires words != [] && (forall w | w in words :: PlainWord(w))
    requires i <= e <= |t| && IsForm(words, LowerText(t[i..e]))
    ensures KeyEnd(words, t, i) == Some(e)
  {
    hide PlainWord;
    if |words| == 1 {
      CiAtIs(words[0], t, i);
      assert KeyEnd(words[1..], t, e) == Some(e);
    } else {
      var k := FirstWordEnds(words, t, i, e);
      FormIsKeyEnd(words[1..], t, k, e);
    }
  }

  lemma FormSplits(words: seq<Text>, tail: seq<Text>, f: Text) returns (s: Text, rest: Text)
    requires |words| > 1 && tail == words[1..] && IsForm(words, f)
    ensures Joins(s) && IsForm(tail, rest) && f == words[0] + s + rest
  {
    s, rest :| Joins(s) && IsForm(words[1..], rest) && f == words[0] + s + rest;
  }

  /** The first word of a form stands at `i`, and the others from `k` on. */
  lemma FirstWordEnds(words: seq<Text>, t: Text, i: nat, e: nat) returns (k: nat)
    requires |words| > 1 && PlainWord(words[1])
    requires i <= e <= |t| && IsForm(words, LowerText(t[i..e]))
    ensures k <= e && CiAt(words[0], t, i) && IsForm(words[1..], LowerText(t[k..e]))
    ensures var n := i + |words[0]|; k == if n < |t| && IsSeparator(t[n]) then n + 1 else n
  {
    var w := words[0];
    var f := LowerText(t[i..e]);
    hide LowerText;
    hide IsForm;
    hide PlainWord;
    var s, rest := FormSplits(words, words[1..], f);
    FormStarts(words[1..], rest);
    k := i + |w| + |s|;
    TakeApart(w, s, rest, t, i, e);
    CiAtIs(w, t, i);
    SeparatorIs(s, rest, t, i + |w|, e);
  }

  lemma SeparatorIs(s: Text, rest: Text, t: Text, n: nat, e: nat)
    requires Joins(s) && rest != "" && 'a' <= rest[0] <= 'z'
    requires n + |s| <= e <= |t| && LowerText(t[n + |s|..e]) == rest && LowerText(t[n..n + |s|]) == s
    ensures (if n < |t| && IsSeparator(t[n]) then n + 1 else n) == n + |s|
  {
    assert Lower(t[n + |s|]) == rest[0];
    if s != "" {
      assert Lower(t[n]) == s[0];
    }
  }

  lemma FormsOfOne(words: seq<Text>, f: Text)
    requires |words| == 1
    ensures IsForm(words, f) <==> f == words[0]
  {
  }

  lemma FormJoins(words: seq<Text>, tail: seq<Text>, s: Text, rest: Text)
    requires |words| > 1 && tail == words[1..] && Joins(s) && IsForm(tail, rest)
    ensures IsForm(words, words[0] + s + rest)
  {
  }

  lemma FormsOfTwo(words: seq<Text>, f: Text)
    requires |words| == 2
    ensures IsForm(words, f) <==> TwoWords(words[0], words[1], f)
  {
    var tail := words[1..];
    if IsForm(words, f) {
      var s, rest := FormSplits(words, tail, f);
      FormsOfOne(tail, rest);
    }
    if TwoWords(words[0], words[1], f) {
      var s :| Joins(s) && f == words[0] + s + words[1];
      FormsOfOne(tail, words[1]);
      FormJoins(words, tail, s, words[1]);
    }
  }

  lemma FormsOfThree(words: seq<Text>, f: Text)
    requires |words| == 3
    ensures IsForm(words, f) <==> ThreeWords(words[0], words[1], words[2], f)
  {
    var tail := words[1..];
    if IsForm(words, f) {
      var r, rest := FormSplits(words, tail, f);
      FormsOfTwo(tail, rest);
      var s :| Joins(s) && rest == words[1] + s + words[2];
    }
    if ThreeWords(words[0], words[1], words[2], f) {
      var r, s :| Joins(r) && Joins(s) && f == words[0] + r + (words[1] + s + words[2]);
      FormsOfTwo(tail, words[1] + s + words[2]);
      FormJoins(words, tail, r, words[1] + s + words[2]);
    }
  }

  lemma KeyEndIff(ws: seq<Word>, t: Text, i: nat, e: nat)
    requires ws != [] && i <= e <= |t|
    ensures KeyEnd(Spelled(ws), t, i) == Some(e) <==> IsForm(Spelled(ws), LowerText(t[i..e]))
  {
    hide KeyEnd;
    hide IsForm;
    if KeyEnd(Spelled(ws), t, i) == Some(e) { KeyEndIsForm(Spelled(ws), t, i, e); }
    if IsForm(Spelled(ws), LowerText(t[i..e])) { FormIsKeyEnd(Spelled(ws), t, i, e); }
  }

  lemma {:induction false} SpelledIs(ws: seq<Word>, i: nat)
    requires i < |ws|
    ensures Spelled(ws)[i] == Spell(ws[i])
  {
    hide Spell;
    if i > 0 {
      SpelledIs(ws[1..], i - 1);
    }
  }

  /** The forms of a row of at most three words. */
  ghost predicate Written(ws: seq<Word>, f: Text) {
    if |ws| == 1 then f == Spell(ws[0])
    else if |ws| == 2 then TwoWords(Spell(ws[0]), Spell(ws[1]), f)
    else |ws| == 3 && ThreeWords(Spell(ws[0]), Spell(ws[1]), Spell(ws[2]), f)
  }

  lemma WrittenIff(ws: seq<Word>, f: Text)
    requires 1 <= |ws| <= 3
    ensures IsForm(Spelled(ws), f) <==> Written(ws, f)
  {
    hide IsForm;
    hide Spell;
    hide TwoWords;
    hide ThreeWords;
    SpelledIs(ws, 0);
    if |ws| > 1 { SpelledIs(ws, 1); }
    if |ws| > 2 { SpelledIs(ws, 2); }
    hide Spelled;
    if |ws| == 1 { FormsOfOne(Spelled(ws), f); }
    if |ws| == 2 { FormsOfTwo(Spelled(ws), f); }
    if |ws| == 3 { FormsOfThree(Spelled(ws), f); }
  }

  /** The names of one word, of two and of three. */
  lemma KeywordsAre()
    ensures forall i | 0 <= i < |KEYWORDS| :: 1 <= |KEYWORDS[i]| <= 3
    ensures |KEYWORDS| == 13
    ensures KEYWORDS[0] == [Password] && KEYWORDS[1] == [Passwd] && KEYWORDS[2] == [Pwd]
    ensures KEYWORDS[3] == [Secret, Access, Key] && KEYWORDS[4] == [Access, Key, Id] && KEYWORDS[5] == [Access, Key]
    ensures KEYWORDS[6] == [Secret, Key] && KEYWORDS[7] == [Private, Key] && KEYWORDS[8] == [Api, Key]
    ensures KEYWORDS[9] == [Secret] && KEYWORDS[10] == [Token]
    ensures KEYWORDS[11] == [Authorization] && KEYWORDS[12] == [Credential]
  {
  }

  /** The listed names, with any separators, are exactly the names written out above. */
  lemma NamesAre(f: Text)
    ensures IsName(f) <==> exists i | 0 <= i < |KEYWORDS| :: Written(KEYWORDS[i], f)
  {
    hide TwoWords;
    hide ThreeWords;
    KeywordsAre();
    hide KEYWORDS;
    WrittenAre(f);
    hide Written;
    var k := KEYWORDS;
    assert k[0] == KEYWORDS[0] && k[1] == KEYWORDS[1] && k[2] == KEYWORDS[2] && k[3] == KEYWORDS[3];
  }

  lemma WrittenAre(f: Text)
    ensures Written([Password], f) <==> f == "password"
    ensures Written([Passwd], f) <==> f == "passwd"
    ensures Written([Pwd], f) <==> f == "pwd"
    ensures Written([Secret], f) <==> f == "secret"
    ensures Written([Token], f) <==> f == "token"
    ensures Written([Authorization], f) <==> f == "authorization"
    ensures Written([Credential], f) <==> f == "credential"
    ensures Written([Secret, Key], f) <==> TwoWords("secret", "key", f)
    ensures Written([Access, Key], f) <==> TwoWords("access", "key", f)
    ensures Written([Private, Key], f) <==> TwoWords("private", "key", f)
    ensures Written([Api, Key], f) <==> TwoWords("api", "key", f)
    ensures Written([Secret, Access, Key], f) <==> ThreeWords("secret", "access", "key", f)
    ensures Written([Access, Key, Id], f) <==> ThreeWords("access", "key", "id", f)
  {
    hide TwoWords;
    hide ThreeWords;
  }

  lemma NameOfLower(n: Text)
    ensures IsName(LowerText(n)) <==> Named(n)
  {
    hide IsName;
    if IsName(LowerText(n)) {
      assert SameWord(n, LowerText(n));
    }
    if Named(n) {
      var w :| IsName(w) && SameWord(n, w);
      NameChars(w);
      LowerIs(n, w);
    }
  }

  lemma LowerIs(n: Text, w: Text)
    requires SameWord(n, w) && LowerName(w)
    ensures LowerText(n) == w
  {
  }

  predicate LowerName(w: Text) {
    |w| >= 2 && forall k | 0 <= k < |w| :: 'a' <= w[k] <= 'z' || w[k] == '_' || w[k] == '-'
  }

  lemma JoinedIsLower(x: Text, y: Text, w: Text)
    requires LowerName(x) && LowerName(y) && TwoWords(x, y, w)
    ensures LowerName(w)
  {
  }

  lemma ThreeAreLower(x: Text, y: Text, z: Text, w: Text)
    requires LowerName(x) && LowerName(y) && LowerName(z) && ThreeWords(x, y, z, w)
    ensures LowerName(w)
  {
    var r, s :| Joins(r) && Joins(s) && w == x + r + (y + s + z);
    JoinedIsLower(y, z, y + s + z);
    JoinedIsLower(x, y + s + z, w);
  }

  lemma NameChars(w: Text)
    requires IsName(w)
    ensures LowerName(w)
  {
    hide TwoWords;
    hide ThreeWords;
    forall x, y | TwoWords(x, y, w) && LowerName(x) && LowerName(y) ensures LowerName(w) { JoinedIsLower(x, y, w); }
    forall x, y, z | ThreeWords(x, y, z, w) && LowerName(x) && LowerName(y) && LowerName(z)
      ensures LowerName(w)
    {
      ThreeAreLower(x, y, z, w);
    }
  }

  /** A name stands at the head of a text and ends at `e` exactly when the key pattern can
      take it for one. */
  lemma NameEndsAt(t: Text, e: nat)
    requires e <= |t|
    ensures Named(t[..e]) <==> exists ws | ws in KEYWORDS :: KeyEnd(Spelled(ws), t, 0) == Some(e)
  {
    hide IsName;
    hide Named;
    var f := LowerText(t[..e]);
    NameOfLower(t[..e]);
    NamesAre(f);
    forall i | 0 <= i < |KEYWORDS|
      ensures KeyEnd(Spelled(KEYWORDS[i]), t, 0) == Some(e) <==> Written(KEYWORDS[i], f)
    {
      KeywordEnd(i, t, e);
    }
    hide KEYWORDS;
    hide KeyEnd;
    hide Spelled;
    hide Written;
    if ws :| ws in KEYWORDS && KeyEnd(Spelled(ws), t, 0) == Some(e) {
      var i :| 0 <= i < |KEYWORDS| && KEYWORDS[i] == ws;
      assert Written(KEYWORDS[i], f);
    }
  }

  lemma KeywordEnd(i: nat, t: Text, e: nat)
    requires i < |KEYWORDS| && e <= |t|
    ensures KeyEnd(Spelled(KEYWORDS[i]), t, 0) == Some(e) <==> Written(KEYWORDS[i], LowerText(t[..e]))
  {
    hide KeyEnd;
    hide IsForm;
    hide Written;
    KeywordsAre();
    hide KEYWORDS;
    assert t[0..e] == t[..e];
    KeyEndIff(KEYWORDS[i], t, 0, e);
    WrittenIff(KEYWORDS[i], LowerText(t[..e]));
  }

  // ---------------------------------------------------------------- a named value

  predicate NameChar(c: char) {
    'a' <= c <= 'z' || 'A' <= c <= 'Z' || '0' <= c <= '9' || c == '_' || c == '-'
  }

  predicate White(c: char) { c as int in {9, 10, 11, 12, 13, 28, 29, 30, 31, 32} }

  predicate Stops(c: char) { White(c) || c in {',', ';', '\'', '\"', '&', ')', '}', ']'} }

  /** `name = value`: the name ends at `e`, spaces lead to `=` or `:` at `a`, more spaces to
      the value `t[b..c]`, and nothing but spaces and stops follows. */
  ghost predicate Assigns(t: Text, e: nat, a: nat, b: nat, c: nat) {
    && 0 < e <= a < b < c <= |t|
    && (forall i | 0 <= i < e :: NameChar(t[i]))
    && (forall i | e <= i < a :: White(t[i])) && t[a] in {'=', ':'} && (forall i | a < i < b :: White(t[i]))
    && (forall i | b <= i < c :: !Stops(t[i]))
    && (forall i | c <= i < |t| :: Stops(t[i]))
  }

  /** One of the names ends at `e`, at the beginning of the text or behind `_` or `-`. */
  ghost predicate NameBefore(t: Text, e: nat)
    requires e <= |t|
  {
    exists i | 0 <= i < e :: Named(t[i..e]) && (i == 0 || t[i - 1] in {'_', '-'})
  }

  lemma ClassesAre(c: char)
    ensures In(SPACE, c) <==> White(c)
    ensures In(VALUE, c) <==> !Stops(c)
    ensures IsKeyChar(c) <==> NameChar(c)
    ensures IsDelimiter(c) <==> c in {'=', ':'}
  {
  }

  lemma Classes()
    ensures forall c :: In(SPACE, c) <==> White(c)
    ensures forall c :: In(VALUE, c) <==> !Stops(c)
    ensures forall c :: IsKeyChar(c) <==> NameChar(c)
    ensures forall c :: IsDelimiter(c) <==> c in {'=', ':'}
  {
    forall c ensures (In(SPACE, c) <==> White(c)) && (In(VALUE, c) <==> !Stops(c)) { ClassesAre(c); }
  }

  lemma {:induction false} NoneAnywhere(m: Matcher, prev: char, t: Text)
    requires forall i | 0 <= i < |t| :: m(Before(prev, t, i), t[i..]).None?
    ensures !HasMatch(m, prev, t)
    decreases |t|
  {
    if t != "" {
      assert m(Before(prev, t, 0), t[0..]).None? && t[0..] == t;
      forall i | 0 <= i < |t[1..]|
        ensures m(Before(t[0], t[1..], i), t[1..][i..]).None?
      {
        assert m(Before(prev, t, i + 1), t[i + 1..]).None? && t[1..][i..] == t[i + 1..];
      }
      NoneAnywhere(m, t[0], t[1..]);
    }
  }

  /** A bearer match needs a letter, spaces and a token character. */
  lemma BearerNeeds(prev: char, t: Text, i: nat) returns (q: nat)
    requires i < |t| && BearerMatch(prev, t[i..]).Some?
    ensures i + 6 < q < |t| && IsLetter(t[i + 5]) && (forall x | i + 6 <= x < q :: White(t[x]))
    ensures In(TOKEN, t[q])
  {
    var u := t[i..];
    BearerMatchIffSpan(prev, u);
    var j := BearerMatch(prev, u).value.keep;
    hide BearerMatch;
    q := i + j;
    assert Lower(u[0 + 5]) == BEARER[5] && In(TOKEN, u[j]);
    Classes();
    forall x | i + 6 <= x < q ensures White(t[x]) { assert In(SPACE, u[x - i]); }
  }

  lemma NoBearerAt(t: Text, e: nat, a: nat, b: nat, c: nat, i: nat)
    requires Assigns(t, e, a, b, c) && i < |t|
    ensures BearerMatch(Before(START, t, i), t[i..]).None?
  {
    hide BearerMatch;
    if BearerMatch(Before(START, t, i), t[i..]).Some? {
      var q := BearerNeeds(Before(START, t, i), t, i);
      NoTokenBehindWhite(t, e, a, b, c, i + 6, q);
    }
  }

  /** The only spaces behind a letter lead to the delimiter or to the end. */
  lemma NoTokenBehindWhite(t: Text, e: nat, a: nat, b: nat, c: nat, p: nat, q: nat)
    requires Assigns(t, e, a, b, c) && 0 < p < q < |t|
    requires IsLetter(t[p - 1]) && forall x | p <= x < q :: White(t[x])
    ensures !In(TOKEN, t[q])
  {
    assert White(t[p]) && !White(t[p - 1]);
  }

  /** There is one way to take such a text apart. */
  lemma AssignsOnce(t: Text, e: nat, a: nat, b: nat, c: nat, f: nat, d: nat, k: nat, l: nat)
    requires Assigns(t, e, a, b, c) && f <= d < k < l <= |t|
    requires forall i | 0 <= i < f :: NameChar(t[i])
    requires forall i | f <= i < d :: White(t[i])
    requires t[d] in {'=', ':'} && (forall i | d < i < k :: White(t[i]))
    requires (forall i | k <= i < l :: !Stops(t[i])) && (l == |t| || Stops(t[l]))
    ensures f == e && d == a && k == b && l == c
  {
    hide White;
    hide Stops;
    hide NameChar;
    CharsDiffer();
    assert White(t[f]) || t[f] in {'=', ':'};
    assert White(t[e]) || t[e] in {'=', ':'};
    assert f == e;
    assert d == a;
    assert !Stops(t[k]) && !Stops(t[b]);
    assert k == b;
    assert c == |t| || Stops(t[c]);
  }

  lemma CharsDiffer()
    ensures forall c :: White(c) || c in {'=', ':'} ==> !NameChar(c)
    ensures forall c :: White(c) ==> c !in {'=', ':'}
    ensures forall c :: White(c) ==> Stops(c)
    ensures forall c :: Stops(c) ==> c !in {'=', ':'} && !NameChar(c)
  {
  }

  /** Whatever the key pattern matches at the head of such a text is its value. */
  lemma ValueIsMatched(prev: char, t: Text, e: nat, a: nat, b: nat, c: nat)
    requires Assigns(t, e, a, b, c) && KeyValueMatch(prev, t).Some?
    ensures KeyValueMatch(prev, t) == Some(Span(b, c, c))
    ensures Named(t[..e]) && !IsAlnum(prev)
  {
    var sp := KeyValueMatch(prev, t).value;
    var ws, f, d := KeyValueMatchHas(prev, t);
    hide KeyValueMatch;
    hide KeyEnd;
    hide Named;
    KeyNameChars(Spelled(ws), t, 0);
    NameEndsAt(t, f);
    hide Spelled;
    hide KEYWORDS;
    hide Stops;
    hide White;
    hide NameChar;
    hide IsKeyChar;
    hide IsDelimiter;
    hide In;
    Classes();
    AssignsOnce(t, e, a, b, c, f, d, sp.keep, sp.cut);
  }

  lemma NamedIsMatched(prev: char, t: Text, e: nat, a: nat, b: nat, c: nat)
    requires Assigns(t, e, a, b, c) && Named(t[..e]) && !IsAlnum(prev)
    ensures KeyValueMatch(prev, t).Some?
  {
    NameEndsAt(t, e);
    var ws :| ws in KEYWORDS && KeyEnd(Spelled(ws), t, 0) == Some(e);
    hide Named;
    hide KeyEnd;
    hide Spelled;
    hide KEYWORDS;
    Classes();
    KeyValueMatchIs(prev, t, ws, e, a, b, c);
  }

  lemma NothingBehindStops(prev: char, t: Text)
    requires forall i | 0 <= i < |t| :: Stops(t[i])
    ensures Sub(KeyValueMatch, prev, t) == t
  {
    forall i | 0 <= i < |t|
      ensures KeyValueMatch(Before(prev, t, i), t[i..]).None?
    {
      NotALetter(Before(prev, t, i), t[i..]);
    }
    NoneAnywhere(KeyValueMatch, prev, t);
    NothingToRewrite(KeyValueMatch, prev, t);
  }

  /** The second pass masks `t[b..c]` and nothing else. */
  ghost predicate MasksValue(prev: char, t: Text, b: nat, c: nat) {
    b <= c <= |t| && Sub(KeyValueMatch, prev, t) == t[..b] + MARK + t[c..]
  }

  lemma MaskedHere(prev: char, t: Text, e: nat, a: nat, b: nat, c: nat)
    requires Assigns(t, e, a, b, c) && KeyValueMatch(prev, t).Some?
    ensures MasksValue(prev, t, b, c)
  {
    hide KeyValueMatch;
    hide Sub;
    hide Named;
    hide MARK;
    ValueIsMatched(prev, t, e, a, b, c);
    NothingBehindStops(t[c - 1], t[c..]);
    hide Assigns;
    MarkedFrom(KeyValueMatch, prev, t, b, c);
  }

  lemma MarkedFrom(m: Matcher, prev: char, t: Text, b: nat, c: nat)
    requires b < c <= |t| && m(prev, t) == Some(Span(b, c, c)) && Sub(m, t[c - 1], t[c..]) == t[c..]
    ensures Sub(m, prev, t) == t[..b] + MARK + t[c..]
  {
    hide Sub;
    hide MARK;
    SubWithoutTail(m, prev, t);
    Join(t[..b], MARK, t[c..]);
  }

  lemma MaskedLater(prev: char, t: Text, p: char, u: Text, b: nat, c: nat)
    requires 0 < b <= c <= |t| && KeyValueMatch(prev, t).None?
    requires p == t[0] && u == t[1..] && MasksValue(p, u, b - 1, c - 1)
    ensures MasksValue(prev, t, b, c)
  {
    assert [t[0]] + t[1..][..b - 1] == t[..b] && t[1..][c - 1..] == t[c..];
  }

  /** One of the names stands at `i` and ends at `e`, and no letter or digit is before it. */
  ghost predicate NameAt(prev: char, t: Text, i: nat, e: nat) {
    i < e <= |t| && Named(t[i..e]) && if i == 0 then !IsAlnum(prev) else t[i - 1] in {'_', '-'}
  }

  lemma HeadIsMatched(prev: char, t: Text, e: nat, a: nat, b: nat, c: nat)
    requires Assigns(t, e, a, b, c) && NameAt(prev, t, 0, e)
    ensures KeyValueMatch(prev, t).Some?
  {
    hide Named;
    assert t[0..e] == t[..e];
    NamedIsMatched(prev, t, e, a, b, c);
  }

  /** One character further on. */
  lemma NameBehind(prev: char, t: Text, e: nat, a: nat, b: nat, c: nat, i: nat)
    requires Assigns(t, e, a, b, c) && 0 < i && NameAt(prev, t, i, e)
    ensures Assigns(t[1..], e - 1, a - 1, b - 1, c - 1) && NameAt(t[0], t[1..], i - 1, e - 1)
  {
    hide White;
    hide Stops;
    hide NameChar;
    hide Named;
    assert t[1..][i - 1..e - 1] == t[i..e];
  }

  lemma {:induction false} ValueIsMasked(prev: char, t: Text, e: nat, a: nat, b: nat, c: nat, i: nat)
    requires Assigns(t, e, a, b, c) && NameAt(prev, t, i, e)
    ensures MasksValue(prev, t, b, c)
    decreases i
  {
    hide *;
    if KeyValueMatch(prev, t).Some? {
      MaskedHere(prev, t, e, a, b, c);
    } else {
      var p, u := OneFurther(prev, t, e, a, b, c, i);
      ValueIsMasked(p, u, e - 1, a - 1, b - 1, c - 1, i - 1);
      MaskedLater(prev, t, p, u, b, c);
    }
  }

  /** If nothing matches here, the name begins further on. */
  lemma OneFurther(prev: char, t: Text, e: nat, a: nat, b: nat, c: nat, i: nat) returns (p: char, u: Text)
    requires Assigns(t, e, a, b, c) && NameAt(prev, t, i, e) && KeyValueMatch(prev, t).None?
    ensures 0 < i < e <= a < b < c <= |t| && p == t[0] && u == t[1..]
    ensures Assigns(u, e - 1, a - 1, b - 1, c - 1) && NameAt(p, u, i - 1, e - 1)
  {
    assert i < e <= a < b < c <= |t|;
    hide *;
    p, u := t[0], t[1..];
    if i == 0 {
      HeadIsMatched(prev, t, e, a, b, c);
    }
    NameBehind(prev, t, e, a, b, c, i);
  }

  lemma NothingUnnamed(t: Text, e: nat, a: nat, b: nat, c: nat)
    requires Assigns(t, e, a, b, c) && !NameBefore(t, e) && (forall i | b <= i < c :: t[i] !in {'=', ':'})
    ensures Sub(KeyValueMatch, START, t) == t
  {
    hide Sub;
    hide KeyValueMatch;
    forall i | 0 <= i < |t|
      ensures KeyValueMatch(Before(START, t, i), t[i..]).None?
    {
      if i < e {
        UnnamedAt(t, e, a, b, c, i);
      } else {
        NoDelimiterAhead(t, e, a, b, c, i);
      }
    }
    NoneAnywhere(KeyValueMatch, START, t);
    NothingToRewrite(KeyValueMatch, START, t);
  }

  lemma UnnamedAt(t: Text, e: nat, a: nat, b: nat, c: nat, i: nat)
    requires Assigns(t, e, a, b, c) && !NameBefore(t, e) && i < e
    ensures KeyValueMatch(Before(START, t, i), t[i..]).None?
  {
    hide Named;
    hide KeyValueMatch;
    assert t[i..][..e - i] == t[i..e];
    assert i > 0 ==> NameChar(t[i - 1]);
    if KeyValueMatch(Before(START, t, i), t[i..]).Some? {
      ValueIsMatched(Before(START, t, i), t[i..], e - i, a - i, b - i, c - i);
    }
  }

  lemma NoDelimiterAhead(t: Text, e: nat, a: nat, b: nat, c: nat, i: nat)
    requires Assigns(t, e, a, b, c) && e <= i < |t| && (forall i | b <= i < c :: t[i] !in {'=', ':'})
    ensures KeyValueMatch(Before(START, t, i), t[i..]).None?
  {
    hide KeyValueMatch;
    CharsDiffer();
    if KeyValueMatch(Before(START, t, i), t[i..]).Some? {
      var q := DelimiterAhead(Before(START, t, i), t, i);
    }
  }

  lemma DelimiterAhead(prev: char, t: Text, i: nat) returns (q: nat)
    requires i < |t| && KeyValueMatch(prev, t[i..]).Some?
    ensures NameChar(t[i]) && i < q < |t| && t[q] in {'=', ':'}
  {
    var u := t[i..];
    var ws, f, d := KeyValueMatchHas(prev, u);
    hide KeyValueMatch;
    KeyNameChars(Spelled(ws), u, 0);
    KeywordsNonEmpty(ws);
    q := i + d;
    assert u[d] == t[q] && u[0] == t[i];
  }

  lemma TwoColons(prev: char, t: Text, i: nat) returns (x: nat, y: nat)
    requires i < |t| && UrlMatch(prev, t[i..]).Some?
    ensures x < y < |t| && t[x] == ':' && t[y] == ':'
  {
    var u := t[i..];
    var d := UrlMatchHas(prev, u);
    var k := UrlMatch(prev, u).value.keep;
    x, y := i + d, i + k - 1;
    assert u[d] == t[x] && u[k - 1] == t[y];
  }

  /** With one colon in it a text holds no URL credential. */
  lemma OneColonNoUrl(t: Text, a: nat)
    requires forall i | 0 <= i < |t| && t[i] == ':' :: i == a
    ensures Sub(UrlMatch, START, t) == t
  {
    hide UrlMatch;
    hide Sub;
    forall i | 0 <= i < |t|
      ensures UrlMatch(Before(START, t, i), t[i..]).None?
    {
      if UrlMatch(Before(START, t, i), t[i..]).Some? {
        var x, y := TwoColons(Before(START, t, i), t, i);
      }
    }
    NoneAnywhere(UrlMatch, START, t);
    NothingToRewrite(UrlMatch, START, t);
  }

  /** The three passes mask the value if one of the names stands before the delimiter, and
      change nothing if none does. */
  lemma MaskedIffNamed(t: Text, e: nat, a: nat, b: nat, c: nat)
    requires Assigns(t, e, a, b, c)
    ensures NameBefore(t, e) ==> FullPath(t) == t[..b] + "[REDACTED]" + t[c..]
    ensures !NameBefore(t, e) && (forall i | b <= i < c :: t[i] !in {'=', ':'}) ==> FullPath(t) == t
  {
    hide Sub;
    hide Named;
    hide BearerMatch;
    FullPathIs(t);
    forall i | 0 <= i < |t| ensures BearerMatch(Before(START, t, i), t[i..]).None? { NoBearerAt(t, e, a, b, c, i); }
    NoneAnywhere(BearerMatch, START, t);
    NothingToRewrite(BearerMatch, START, t);
    if NameBefore(t, e) {
      var i :| 0 <= i < e && Named(t[i..e]) && (i == 0 || t[i - 1] in {'_', '-'});
      assert NameAt(START, t, i, e);
      ValueIsMasked(START, t, e, a, b, c, i);
      MaskedColons(t, e, a, b, c);
      OneColonNoUrl(t[..b] + MARK + t[c..], a);
    } else if forall i | b <= i < c :: t[i] !in {'=', ':'} {
      NothingUnnamed(t, e, a, b, c);
      CharsDiffer();
      OneColonNoUrl(t, a);
    }
  }

  lemma MaskedColons(t: Text, e: nat, a: nat, b: nat, c: nat)
    requires Assigns(t, e, a, b, c)
    ensures var u := t[..b] + MARK + t[c..]; forall i | 0 <= i < |u| && u[i] == ':' :: i == a
  {
    var u := t[..b] + MARK + t[c..];
    assert forall i | b <= i < b + 10 :: u[i] == MARK[i - b];
    assert forall i | b + 10 <= i < |u| :: u[i] == t[i - b - 10 + c];
    CharsDiffer();
  }

  /** The spellings the pre-filter misses. */
  ghost predicate Missed(n: Text) {
    || (|n| >= 9 && SameWord(n[..9], "accesskey"))
    || (|n| >= 10 && SameWord(n[..10], "access-key"))
  }

  lemma CiAtSame(w: Text, t: Text)
    requires CiAt(w, t, 0) && LowerName(w)
    ensures SameWord(t[..|w|], w) && forall i | 0 <= i < |w| :: NameChar(t[i])
  {
    assert forall x | 0 <= x < |w| :: Lower(t[0 + x]) == w[x];
  }

  lemma NameShowsAnchor(t: Text, e: nat)
    requires e < |t| && !NameChar(t[e]) && Named(t[..e]) && !Missed(t[..e])
    ensures exists a | a in ANCHORS :: CiAt(a, t, 0)
  {
    hide Named;
    hide KEYWORDS;
    hide ANCHORS;
    hide KeyEnd;
    hide Spelled;
    hide SameWord;
    NameEndsAt(t, e);
    var ws :| ws in KEYWORDS && KeyEnd(Spelled(ws), t, 0) == Some(e);
    var a := KeyNameAnchor(ws, t);
    assert forall k | 0 <= k <= e :: t[..e][..k] == t[..k];
    if a in MISSED {
      CiAtSame(a, t);
    }
  }

  /** A value behind one of the names is masked, whatever the letter case, the characters
      around the delimiter and what the name is a part of. */
  lemma NamedValueIsMasked(t: Text, e: nat, a: nat, b: nat, c: nat, i: nat)
    requires Assigns(t, e, a, b, c)
    requires i < e && Named(t[i..e]) && !Missed(t[i..e]) && (i == 0 || t[i - 1] in {'_', '-'})
    ensures Redacted(t) == t[..b] + "[REDACTED]" + t[c..]
  {
    hide FullPath;
    hide Named;
    hide Missed;
    hide HasAnchor;
    MaskedIffNamed(t, e, a, b, c);
    CharsDiffer();
    assert t[i..][..e - i] == t[i..e] && t[i..][e - i] == t[e];
    NameShowsAnchor(t[i..], e - i);
    var w :| w in ANCHORS && CiAt(w, t[i..], 0);
    AnchorIsShown(w, t, i);
  }

  lemma AnchorIsShown(w: Text, t: Text, i: nat)
    requires w in ANCHORS && i <= |t| && CiAt(w, t[i..], 0)
    ensures HasAnchor(ANCHORS, t)
  {
    hide ANCHORS;
    assert forall x | 0 <= x < |w| :: Lower(t[i..][0 + x]) == w[x];
    assert CiAt(w, t, i);
    CiAtContains(w, t, i);
  }

  /** A text with any character beyond ASCII, wherever it stands, goes through all three passes. */
  lemma BeyondAscii(t: Text, x: nat)
    requires x < |t| && t[x] as int >= 128
    ensures Redacted(t) == FullPath(t)
  {
    hide FullPath;
    hide HasAnchor;
    assert !IsAscii(t);
  }

  /** In a text with any character beyond ASCII the two missed spellings are masked too. */
  lemma BeyondAsciiIsMasked(t: Text, e: nat, a: nat, b: nat, c: nat, x: nat)
    requires Assigns(t, e, a, b, c) && NameBefore(t, e)
    requires x < |t| && t[x] as int >= 128
    ensures Redacted(t) == t[..b] + "[REDACTED]" + t[c..]
  {
    hide FullPath;
    hide Redacted;
    BeyondAscii(t, x);
    MaskedIffNamed(t, e, a, b, c);
  }

  /** A text in which no name stands before the delimiter comes back as it is. */
  lemma UnnamedIsKept(t: Text, e: nat, a: nat, b: nat, c: nat)
    requires Assigns(t, e, a, b, c) && !NameBefore(t, e) && (forall i | b <= i < c :: t[i] !in {'=', ':'})
    ensures Redacted(t) == t
  {
    hide FullPath;
    MaskedIffNamed(t, e, a, b, c);
  }

  /** `password=hunter2`: any of the names, `=` or `:`, and a value of any characters a value
      may have. */
  lemma NameAndValue(n: Text, d: char, v: Text)
    requires Named(n) && !Missed(n) && d in {'=', ':'}
    requires v != "" && forall i | 0 <= i < |v| :: !Stops(v[i])
    ensures Redacted(n + [d] + v) == n + [d] + "[REDACTED]"
  {
    var t := n + [d] + v;
    var e := |n|;
    NameOfLower(n);
    NameChars(LowerText(n));
    hide Named;
    hide Missed;
    assert forall i | 0 <= i < e :: LowerText(n)[i] == Lower(n[i]) && NameChar(n[i]);
    assert Assigns(t, e, e, e + 1, |t|);
    assert t[0..e] == n && t[..e + 1] == n + [d] && t[|t|..] == "";
    hide Redacted;
    NamedValueIsMasked(t, e, e, e + 1, |t|, 0);
    assert n + [d] + "[REDACTED]" + "" == n + [d] + "[REDACTED]";
  }
}
