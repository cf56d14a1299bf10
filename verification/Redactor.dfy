/** `redact_secrets`: the literal pre-filter in front of the three passes, and what any text it
    returns is free of. */
module Redactor {
  import opened Options
  import opened SecretPatterns
  import opened SecretMatching
  import opened BearerSafety
  import opened MarkedSecrets
  import opened KeyValueSafety
  import opened UrlSafety

  /** The literals the pre-filter looks for. */
  const ANCHORS: seq<Text> := [
    "bearer", "password", "passwd", "pwd", "secret", "access_key", "apikey", "api_key", "api-key",
    "privatekey", "private_key", "private-key", "token", "authorization", "credential", "://"]

  /** Two spellings the key pattern accepts and the list above misses. */
  const MISSED: seq<Text> := ["access-key", "accesskey"]

  predicate IsAscii(t: Text) { forall i | 0 <= i < |t| :: t[i] as int < 128 }

  function LowerText(t: Text): (r: Text)
    ensures |r| == |t| && forall i | 0 <= i < |t| :: r[i] == Lower(t[i])
  {
    seq(|t|, i requires 0 <= i < |t| => Lower(t[i]))
  }

  predicate OccursAt(t: Text, a: Text, i: nat) {
    i + |a| <= |t| && t[i..i + |a|] == a
  }

  predicate Contains(t: Text, a: Text) {
    exists i | 0 <= i <= |t| :: OccursAt(t, a, i)
  }

  predicate HasAnchor(anchors: seq<Text>, t: Text) {
    exists a | a in anchors :: Contains(LowerText(t), a)
  }

  function RunPasses(ms: seq<Matcher>, t: Text): Text {
    if ms == [] then t else Sub(ms[|ms| - 1], START, RunPasses(ms[..|ms| - 1], t))
  }

  /** All three passes, whatever the text. */
  function FullPath(t: Text): Text { RunPasses(PATTERNS, t) }

  function Redacted(t: Text): Text {
    if t == "" || (IsAscii(t) && !HasAnchor(ANCHORS, t)) then t else FullPath(t)
  }

  method RedactSecrets(text: Option<Text>) returns (redacted: Option<Text>)
    ensures text.None? ==> redacted.None?
    ensures text.Some? ==> redacted == Some(Redacted(text.value))
  {
    if text.None? || text.value == "" {
      return text;
    }
    var t := text.value;
    if IsAscii(t) {
      var found := HasAnchor(ANCHORS, t);
      if !found {
        return text;
      }
    }
    var out := t;
    for i := 0 to |PATTERNS|
      invariant out == RunPasses(PATTERNS[..i], t)
    {
      assert PATTERNS[..i + 1][..i] == PATTERNS[..i];
      out := Sub(PATTERNS[i], START, out);
    }
    assert PATTERNS[..|PATTERNS|] == PATTERNS;
    redacted := Some(out);
  }

  lemma FullPathIs(t: Text)
    ensures FullPath(t) == Sub(UrlMatch, START, Sub(KeyValueMatch, START, Sub(BearerMatch, START, t)))
  {
    hide Sub;
    var ms: seq<Matcher> := [BearerMatch, KeyValueMatch, UrlMatch];
    assert ms[..2] == [BearerMatch, KeyValueMatch] && ms[..2][..1] == [BearerMatch] && ms[..2][..1][..0] == [];
    assert RunPasses(ms[..2][..1], t) == Sub(BearerMatch, START, t);
    assert RunPasses(ms[..2], t) == Sub(KeyValueMatch, START, RunPasses(ms[..2][..1], t));
  }

  // ---------------------------------------------------------------- every match shows an anchor

  /** `a` occurs at `i`, so it is contained. */
  lemma CiAtContains(a: Text, t: Text, i: nat)
    requires CiAt(a, t, i)
    ensures Contains(LowerText(t), a)
  {
    assert OccursAt(LowerText(t), a, i);
  }

  lemma ContainsBehind(t: Text, a: Text)
    requires t != "" && Contains(LowerText(t[1..]), a)
    ensures Contains(LowerText(t), a)
  {
    var u := LowerText(t[1..]);
    var i :| 0 <= i <= |u| && OccursAt(u, a, i);
    assert LowerText(t)[i + 1..i + 1 + |a|] == u[i..i + |a|];
    assert OccursAt(LowerText(t), a, i + 1);
  }

  /** Wherever `m` matches, one of `anchors` can be read. */
  ghost predicate Anchored(m: Matcher, anchors: seq<Text>) {
    forall prev, t | m(prev, t).Some? :: HasAnchor(anchors, t)
  }

  lemma {:induction false} MatchShowsAnchor(m: Matcher, anchors: seq<Text>, prev: char, t: Text)
    requires Anchored(m, anchors) && HasMatch(m, prev, t)
    ensures HasAnchor(anchors, t)
    decreases |t|
  {
    if m(prev, t).None? {
      MatchShowsAnchor(m, anchors, t[0], t[1..]);
      var a :| a in anchors && Contains(LowerText(t[1..]), a);
      ContainsBehind(t, a);
    }
  }

  lemma AnchorsSplit(xs: seq<Text>, ys: seq<Text>, t: Text)
    ensures HasAnchor(xs + ys, t) <==> HasAnchor(xs, t) || HasAnchor(ys, t)
  {
    assert forall a :: a in xs + ys <==> a in xs || a in ys;
  }

  lemma BearerAnchored()
    ensures Anchored(BearerMatch, ANCHORS)
  {
    forall prev, t | BearerMatch(prev, t).Some?
      ensures HasAnchor(ANCHORS, t)
    {
      CiAtContains("bearer", t, 0);
      assert "bearer" in ANCHORS;
    }
  }

  lemma SchemeEndShows(t: Text, a: nat)
    requires SchemeEnds(t, a)
    ensures HasAnchor(ANCHORS, t)
  {
    assert "://"[0] == ':' && "://"[1] == '/' && "://"[2] == '/';
    CiAtContains("://", t, a);
    assert ANCHORS[15] == "://";
  }

  lemma UrlAnchored()
    ensures Anchored(UrlMatch, ANCHORS)
  {
    hide HasAnchor;
    forall prev, t | UrlMatch(prev, t).Some?
      ensures HasAnchor(ANCHORS, t)
    {
      var a := UrlMatchHas(prev, t);
      SchemeEndShows(t, a);
    }
  }

  lemma JoinedAt(x: Text, y: Text, t: Text, i: nat)
    requires CiAt(x, t, i) && CiAt(y, t, i + |x|)
    ensures CiAt(x + y, t, i)
  {
    forall k | 0 <= k < |x + y|
      ensures Lower(t[i + k]) == (x + y)[k]
    {
      if k >= |x| {
        assert Lower(t[i + |x| + (k - |x|)]) == y[k - |x|];
      }
    }
  }

  /** A word, an optional separator and `key`: one of three spellings is there. */
  lemma WordThenKey(x: Text, t: Text) returns (spelling: Text)
    requires CiAt(x, t, 0)
    requires var n := |x|; CiAt("key", t, if n < |t| && IsSeparator(t[n]) then n + 1 else n)
    ensures spelling in [x + "_key", x + "-key", x + "key"] && CiAt(spelling, t, 0)
  {
    var n := |x|;
    if n < |t| && IsSeparator(t[n]) {
      assert CiAt([t[n]], t, n);
      JoinedAt(x, [t[n]], t, 0);
      JoinedAt(x + [t[n]], "key", t, 0);
      spelling := x + [t[n]] + "key";
      assert spelling == x + ([t[n]] + "key");
      assert "_key" == ['_'] + "key" && "-key" == ['-'] + "key";
    } else {
      JoinedAt(x, "key", t, 0);
      spelling := x + "key";
    }
  }

  lemma Compounds()
    ensures "access" + "_key" == "access_key" && "access" + "-key" == "access-key" && "access" + "key" == "accesskey"
    ensures "private" + "_key" == "private_key" && "private" + "-key" == "private-key" &&
      "private" + "key" == "privatekey"
    ensures "api" + "_key" == "api_key" && "api" + "-key" == "api-key" && "api" + "key" == "apikey"
  {
  }

  lemma FirstWords(ws: seq<Word>)
    requires ws in KEYWORDS
    ensures ws != []
    ensures ws[0].Access? || ws[0].Private? || ws[0].Api? ==> |ws| > 1 && ws[1] == Key
    ensures !ws[0].Key? && !ws[0].Id?
  {
  }

  lemma SingleWordAnchor(w: Word)
    requires !w.Access? && !w.Private? && !w.Api? && !w.Key? && !w.Id?
    ensures Spell(w) in ANCHORS
  {
    match w
    case Password => assert ANCHORS[1] == "password";
    case Passwd => assert ANCHORS[2] == "passwd";
    case Pwd => assert ANCHORS[3] == "pwd";
    case Secret => assert ANCHORS[4] == "secret";
    case Token => assert ANCHORS[12] == "token";
    case Authorization => assert ANCHORS[13] == "authorization";
    case Credential => assert ANCHORS[14] == "credential";
  }

  /** A key name begins with an anchor, if the two missed spellings are counted. */
  lemma KeyNameAnchor(ws: seq<Word>, t: Text) returns (a: Text)
    requires ws in KEYWORDS && KeyEnd(Spelled(ws), t, 0).Some?
    ensures a in ANCHORS + MISSED && CiAt(a, t, 0)
  {
    FirstWords(ws);
    if ws[0].Access? || ws[0].Private? || ws[0].Api? {
      assert Spelled(ws)[1..] == Spelled(ws[1..]) && Spelled(ws[1..])[0] == "key";
      a := WordThenKey(Spell(ws[0]), t);
      Compounds();
      assert ANCHORS[5] == "access_key" && ANCHORS[6] == "apikey" && ANCHORS[7] == "api_key" && ANCHORS[8] == "api-key";
      assert ANCHORS[9] == "privatekey" && ANCHORS[10] == "private_key" && ANCHORS[11] == "private-key";
      assert MISSED[0] == "access-key" && MISSED[1] == "accesskey";
    } else {
      SingleWordAnchor(ws[0]);
      a := Spell(ws[0]);
    }
  }

  lemma KeyValueAnchored()
    ensures Anchored(KeyValueMatch, ANCHORS + MISSED)
  {
    forall prev, t | KeyValueMatch(prev, t).Some?
      ensures HasAnchor(ANCHORS + MISSED, t)
    {
      var ws, _, _ := KeyValueMatchHas(prev, t);
      var a := KeyNameAnchor(ws, t);
      CiAtContains(a, t, 0);
    }
  }

  lemma {:induction false} NothingToRewrite(m: Matcher, prev: char, t: Text)
    requires !HasMatch(m, prev, t)
    ensures Sub(m, prev, t) == t
    decreases |t|
  {
    if t != "" {
      NothingToRewrite(m, t[0], t[1..]);
    }
  }

  /** With the two spellings added to the list, returning early is the same as running all
      three passes, for every text. */
  lemma PrefilterSound(t: Text)
    requires !HasAnchor(ANCHORS + MISSED, t)
    ensures FullPath(t) == t
  {
    hide Sub;
    hide HasMatch;
    hide HasAnchor;
    AnchorsSplit(ANCHORS, MISSED, t);
    FullPathIs(t);
    BearerAnchored();
    KeyValueAnchored();
    UrlAnchored();
    if HasMatch(BearerMatch, START, t) { MatchShowsAnchor(BearerMatch, ANCHORS, START, t); }
    if HasMatch(KeyValueMatch, START, t) { MatchShowsAnchor(KeyValueMatch, ANCHORS + MISSED, START, t); }
    if HasMatch(UrlMatch, START, t) { MatchShowsAnchor(UrlMatch, ANCHORS, START, t); }
    NothingToRewrite(BearerMatch, START, t);
    NothingToRewrite(KeyValueMatch, START, t);
    NothingToRewrite(UrlMatch, START, t);
  }

  // ---------------------------------------------------------------- the list as written

  /** A pass that matches anything changes the text: the value class excludes `]`, so a value
      is never the marker, and the text behind a marker cannot make up for it. */
  lemma {:induction false} NoShift(prev: char, t: Text)
    ensures t != "]" + Sub(KeyValueMatch, prev, t)
    decreases |t|
  {
    if t != "" && t[0] == ']' {
      if KeyValueMatch(prev, t).Some? {
        var ws, _, _ := KeyValueMatchHas(prev, t);
        KeywordsNonEmpty(ws);
        KeyNameChars(Spelled(ws), t, 0);
      }
      NoShift(']', t[1..]);
      assert Sub(KeyValueMatch, prev, t) == "]" + Sub(KeyValueMatch, ']', t[1..]);
      assert t == "]" + t[1..];
    }
  }

  lemma MarkerAt(t: Text, k: nat, rest: Text)
    requires k <= |t| && t[k..] == MARK + rest
    ensures k + 10 <= |t| && All(VALUE, t, k, k + 9) && !In(VALUE, t[k + 9]) && t[k + 9..] == "]" + rest
  {
    assert forall x {:trigger t[x]} | k <= x < k + 10 :: t[x] == t[k..][x - k] == MARK[x - k];
    assert t[k + 9..] == t[k..][9..] == (MARK + rest)[9..] == "]" + rest;
  }

  /** If the marker stands where the value was, the match ended at its `]`. */
  lemma MatchedMarker(prev: char, t: Text, rest: Text)
    requires KeyValueMatch(prev, t).Some?
    requires t[KeyValueMatch(prev, t).value.keep..] == MARK + rest
    ensures t[KeyValueMatch(prev, t).value.end..] == "]" + rest
  {
    var sp := KeyValueMatch(prev, t).value;
    var _, _, _ := KeyValueMatchHas(prev, t);
    hide KeyValueMatch;
    MarkerAt(t, sp.keep, rest);
    assert sp.cut == sp.keep + 9;
  }

  lemma KeyValuePassForm(prev: char, t: Text)
    requires KeyValueMatch(prev, t).Some?
    ensures
      var sp := KeyValueMatch(prev, t).value;
      Sub(KeyValueMatch, prev, t) == t[..sp.keep] + (MARK + Sub(KeyValueMatch, t[sp.end - 1], t[sp.end..]))
  {
    hide KeyValueMatch;
    hide Sub;
    ValueEndsMatch(prev, t);
    SubWithoutTail(KeyValueMatch, prev, t);
  }

  lemma RewriteDiffers(prev: char, t: Text)
    requires KeyValueMatch(prev, t).Some?
    ensures Sub(KeyValueMatch, prev, t) != t
  {
    hide KeyValueMatch;
    hide Sub;
    KeyValuePassForm(prev, t);
    var sp := KeyValueMatch(prev, t).value;
    var rest := Sub(KeyValueMatch, t[sp.end - 1], t[sp.end..]);
    if t == t[..sp.keep] + (MARK + rest) {
      assert t[sp.keep..] == (t[..sp.keep] + (MARK + rest))[sp.keep..] == MARK + rest;
      MatchedMarker(prev, t, rest);
      NoShift(t[sp.end - 1], t[sp.end..]);
    }
  }

  lemma {:induction false} MatchingChanges(prev: char, t: Text)
    requires HasMatch(KeyValueMatch, prev, t)
    ensures Sub(KeyValueMatch, prev, t) != t
    decreases |t|
  {
    if KeyValueMatch(prev, t).Some? {
      RewriteDiffers(prev, t);
    } else {
      MatchingChanges(t[0], t[1..]);
      assert Sub(KeyValueMatch, prev, t)[1..] == Sub(KeyValueMatch, t[0], t[1..]);
    }
  }

  lemma RewrittenStillMatches(prev: char, t: Text, rest: Text)
    requires KeyValueMatch(prev, t).Some?
    ensures KeyValueMatch(prev, t[..KeyValueMatch(prev, t).value.keep] + (MARK + rest)).Some?
  {
    var sp := KeyValueMatch(prev, t).value;
    var ws, e, a := KeyValueMatchHas(prev, t);
    hide KeyValueMatch;
    var u := t[..sp.keep] + (MARK + rest);
    assert u[sp.keep] == MARK[0];
    SpanOnPrefix(prev, u, t, ws, e, a, sp.keep, sp.cut);
    KeyValueMatchIs(prev, u, ws, e, a, sp.keep, sp.keep + 1);
  }

  lemma {:induction false} MatchPersists(prev: char, t: Text)
    requires HasMatch(KeyValueMatch, prev, t)
    ensures HasMatch(KeyValueMatch, prev, Sub(KeyValueMatch, prev, t))
    decreases |t|
  {
    hide KeyValueMatch;
    if KeyValueMatch(prev, t).Some? {
      var sp := KeyValueMatch(prev, t).value;
      hide Sub;
      KeyValuePassForm(prev, t);
      RewrittenStillMatches(prev, t, Sub(KeyValueMatch, t[sp.end - 1], t[sp.end..]));
    } else {
      MatchPersists(t[0], t[1..]);
      assert Sub(KeyValueMatch, prev, t)[1..] == Sub(KeyValueMatch, t[0], t[1..]);
    }
  }

  /** The second pass is idempotent on exactly the texts it does not touch: a marker it left
      is taken for a value again, and its `]` stays behind. */
  lemma SecondPassIdempotentIff(t: Text)
    ensures
      var once := Sub(KeyValueMatch, START, t);
      Sub(KeyValueMatch, START, once) == once <==> !HasMatch(KeyValueMatch, START, t)
  {
    hide KeyValueMatch;
    hide Sub;
    hide HasMatch;
    if HasMatch(KeyValueMatch, START, t) {
      MatchPersists(START, t);
      MatchingChanges(START, Sub(KeyValueMatch, START, t));
    } else {
      NothingToRewrite(KeyValueMatch, START, t);
    }
  }

  predicate HasSchemeEnd(t: Text) {
    t != "" && (SchemeEnds(t, 0) || HasSchemeEnd(t[1..]))
  }

  lemma {:induction false} SchemeEndSplits(x: Text, y: Text)
    requires y != "" && y[0] == '[' && HasSchemeEnd(x + y)
    ensures HasSchemeEnd(x) || HasSchemeEnd(y)
    decreases |x|
  {
    if x == "" {
      assert x + y == y;
    } else {
      assert (x + y)[1..] == x[1..] + y && (x + y)[|x|] == '[';
      if !SchemeEnds(x + y, 0) {
        SchemeEndSplits(x[1..], y);
      }
    }
  }

  lemma {:induction false} SchemeEndJoins(x: Text, y: Text)
    requires HasSchemeEnd(x) || HasSchemeEnd(y)
    ensures HasSchemeEnd(x + y)
    decreases |x|
  {
    if x == "" {
      assert x + y == y;
    } else {
      assert (x + y)[1..] == x[1..] + y;
      if !SchemeEnds(x, 0) {
        SchemeEndJoins(x[1..], y);
      }
    }
  }

  lemma {:induction false} SkipNoColon(x: Text, y: Text)
    requires HasSchemeEnd(x + y) && forall i | 0 <= i < |x| :: x[i] != ':'
    ensures HasSchemeEnd(y)
    decreases |x|
  {
    if x == "" {
      assert x + y == y;
    } else {
      assert (x + y)[1..] == x[1..] + y && (x + y)[0] == x[0];
      SkipNoColon(x[1..], y);
    }
  }

  lemma SchemeEndAcrossRewrite(prev: char, t: Text, rest: Text)
    requires KeyValueMatch(prev, t).Some?
    requires var sp := KeyValueMatch(prev, t).value; HasSchemeEnd(t[..sp.keep] + Gap(sp, t) + rest)
    requires HasSchemeEnd(rest) ==> HasSchemeEnd(t[KeyValueMatch(prev, t).value.end..])
    ensures HasSchemeEnd(t)
  {
    var sp := KeyValueMatch(prev, t).value;
    var _, _, _ := KeyValueMatchHas(prev, t);
    assert t[..sp.keep] + Gap(sp, t) + rest == t[..sp.keep] + (MARK + rest);
    SchemeEndSplits(t[..sp.keep], MARK + rest);
    if HasSchemeEnd(MARK + rest) {
      SkipNoColon(MARK, rest);
      SchemeEndJoins(t[..sp.end], t[sp.end..]);
      assert t[..sp.end] + t[sp.end..] == t;
    } else {
      SchemeEndJoins(t[..sp.keep], t[sp.keep..]);
      assert t[..sp.keep] + t[sp.keep..] == t;
    }
  }

  /** The second pass brings no `://` into a text. */
  lemma {:induction false} SchemeEndWasThere(prev: char, t: Text)
    requires HasSchemeEnd(Sub(KeyValueMatch, prev, t))
    ensures HasSchemeEnd(t)
    decreases |t|
  {
    hide KeyValueMatch;
    var out := Sub(KeyValueMatch, prev, t);
    if t == "" {
    } else if KeyValueMatch(prev, t).None? {
      if SchemeEnds(out, 0) {
        CopiedPrefix(KeyValueMatch, prev, t, 3);
        assert forall i | 0 <= i < 3 :: t[i] == t[..3][i] == out[..3][i] == out[i];
      } else {
        assert out[1..] == Sub(KeyValueMatch, t[0], t[1..]);
        SchemeEndWasThere(t[0], t[1..]);
      }
    } else {
      var sp := KeyValueMatch(prev, t).value;
      var rest := Sub(KeyValueMatch, t[sp.end - 1], t[sp.end..]);
      if HasSchemeEnd(rest) {
        SchemeEndWasThere(t[sp.end - 1], t[sp.end..]);
      }
      SchemeEndAcrossRewrite(prev, t, rest);
    }
  }

  lemma {:induction false} UrlNeedsSchemeEnd(prev: char, t: Text)
    requires HasMatch(UrlMatch, prev, t)
    ensures HasSchemeEnd(t)
    decreases |t|
  {
    if UrlMatch(prev, t).Some? {
      var a := UrlMatchHas(prev, t);
      SchemeEndIn(t, a);
    } else {
      UrlNeedsSchemeEnd(t[0], t[1..]);
    }
  }

  lemma {:induction false} SchemeEndIn(t: Text, a: nat)
    requires SchemeEnds(t, a)
    ensures HasSchemeEnd(t)
    decreases a
  {
    if a > 0 {
      SchemeEndIn(t[1..], a - 1);
    }
  }

  lemma {:induction false} SchemeEndIsAnchor(t: Text)
    requires HasSchemeEnd(t)
    ensures HasAnchor(ANCHORS, t)
  {
    if SchemeEnds(t, 0) {
      SchemeEndShows(t, 0);
    } else {
      SchemeEndIsAnchor(t[1..]);
      var a :| a in ANCHORS && Contains(LowerText(t[1..]), a);
      ContainsBehind(t, a);
    }
  }

  /** For a text that shows none of the listed anchors, the early return agrees with the three
      passes exactly when the key pattern has no match, which then could only be one of the
      two spellings the list misses. */
  lemma PrefilterExact(t: Text)
    requires !HasAnchor(ANCHORS, t)
    ensures FullPath(t) == t <==> !HasMatch(KeyValueMatch, START, t)
    ensures FullPath(t) != t ==> HasAnchor(MISSED, t)
  {
    hide Sub;
    hide HasMatch;
    hide HasAnchor;
    AnchorsSplit(ANCHORS, MISSED, t);
    FullPathIs(t);
    BearerAnchored();
    if HasMatch(BearerMatch, START, t) { MatchShowsAnchor(BearerMatch, ANCHORS, START, t); }
    NothingToRewrite(BearerMatch, START, t);
    var t2 := Sub(KeyValueMatch, START, t);
    if HasMatch(UrlMatch, START, t2) {
      UrlNeedsSchemeEnd(START, t2);
      SchemeEndWasThere(START, t);
      SchemeEndIsAnchor(t);
    }
    NothingToRewrite(UrlMatch, START, t2);
    if HasMatch(KeyValueMatch, START, t) {
      MatchingChanges(START, t);
      KeyValueAnchored();
      MatchShowsAnchor(KeyValueMatch, ANCHORS + MISSED, START, t);
    } else {
      NothingToRewrite(KeyValueMatch, START, t);
    }
  }

  // ---------------------------------------------------------------- what comes back

  lemma NoAnchorNoMatch(t: Text)
    requires !HasAnchor(ANCHORS, t)
    ensures BearerFree(t) && UrlSecretsMarked(t)
  {
    hide Sub;
    hide HasMatch;
    hide HasAnchor;
    BearerAnchored();
    if HasMatch(BearerMatch, START, t) { MatchShowsAnchor(BearerMatch, ANCHORS, START, t); }
    UrlAnchored();
    if HasMatch(UrlMatch, START, t) { MatchShowsAnchor(UrlMatch, ANCHORS, START, t); }
    NoBearerIsFree(t);
    NoMatchIsClean(UrlMatch, START, t);
    CleanIsMarked(t);
  }

  lemma NothingInNothing()
    ensures FullPath("") == ""
  {
    FullPathIs("");
  }

  /** Whatever text goes in and whichever path it takes, the text that comes back matches the
      bearer pattern nowhere, and every URL credential in it has the marker for its secret.
      Every `name=value` in it has the marker for its value, unless the text came back early
      and holds one of the two spellings the anchors miss. */
  lemma RedactedIsSafe(t: Text)
    ensures BearerFree(Redacted(t)) && UrlSecretsMarked(Redacted(t))
    ensures !HasAnchor(MISSED, t) || HasAnchor(ANCHORS, t) || !IsAscii(t) ==> ValuesMarked(Redacted(t))
  {
    hide Sub;
    hide HasAnchor;
    hide BearerFree;
    hide UrlSecretsMarked;
    hide ValuesMarked;
    if Redacted(t) == t && !HasAnchor(ANCHORS, t) {
      NoAnchorNoMatch(t);
      if HasAnchor(MISSED, t) {
        if !IsAscii(t) {
          FullPathIsSafe(t);
        }
      } else {
        NoNameNoValue(t);
      }
    } else {
      if t == "" {
        NothingInNothing();
      }
      FullPathIsSafe(t);
    }
  }

  lemma FullPathIsSafe(t: Text)
    ensures BearerFree(FullPath(t)) && UrlSecretsMarked(FullPath(t)) && ValuesMarked(FullPath(t))
  {
    hide Sub;
    hide BearerFree;
    hide UrlSecretsMarked;
    hide ValuesMarked;
    FullPathIs(t);
    ThreePassesLeaveNoBearer(t);
    LastPassesMarkValues(Sub(BearerMatch, START, t));
    LastPassMarksUrls(Sub(KeyValueMatch, START, Sub(BearerMatch, START, t)));
  }

  lemma NoNameNoValue(t: Text)
    requires !HasAnchor(ANCHORS, t) && !HasAnchor(MISSED, t)
    ensures ValuesMarked(t)
  {
    hide HasAnchor;
    hide HasMatch;
    AnchorsSplit(ANCHORS, MISSED, t);
    KeyValueAnchored();
    if HasMatch(KeyValueMatch, START, t) { MatchShowsAnchor(KeyValueMatch, ANCHORS + MISSED, START, t); }
    NoMatchIsClean(KeyValueMatch, START, t);
    CleanIsValuesMarked(t);
  }

  // ---------------------------------------------------------------- two inputs

  const LEAK: Text := "accesskey:x"

  /** The neighbours in `LEAK`. */
  predicate LeakPair(x: char, y: char) {
    match x
    case 'a' => y == 'c'
    case 'c' => y == 'c' || y == 'e'
    case 'e' => y == 's' || y == 'y'
    case 's' => y == 's' || y == 'k'
    case 'k' => y == 'e'
    case 'y' => y == ':'
    case ':' => y == 'x'
    case _ => false
  }

  lemma AnchorPairs(a: Text)
    requires a in ANCHORS
    ensures |a| >= 3 && (LeakPair(a[0], a[1]) ==> |a| == 10 && a[6] == '_')
  {
  }

  lemma LeakPairs(i: nat)
    requires i + 1 < 11
    ensures LeakPair(LEAK[i], LEAK[i + 1]) && (i < 2 ==> LEAK[i + 6] != '_')
  {
  }

  lemma LeakHasNoAnchor()
    ensures !HasAnchor(ANCHORS, LEAK)
  {
    hide LeakPair;
    var u := LowerText(LEAK);
    assert |u| == 11 && forall x | 0 <= x < 11 :: u[x] == LEAK[x];
    forall a, i: nat | a in ANCHORS
      ensures !OccursAt(u, a, i)
    {
      AnchorPairs(a);
      if i + |a| <= 11 {
        LeakPairs(i);
        var v := u[i..i + |a|];
        assert v[0] == LEAK[i] && v[1] == LEAK[i + 1] && (|a| == 10 ==> v[6] == LEAK[i + 6]);
      }
    }
  }

  lemma LeakSpan()
    ensures KeyValueSpan(START, LEAK, [Access, Key], 9, 9, 10, 11)
  {
    assert KEYWORDS[5] == [Access, Key];
    assert Spelled([Access, Key]) == ["access", "key"];
    assert CiAt("access", LEAK, 0) && CiAt("key", LEAK, 6);
    assert KeyEnd(["key"], LEAK, 6) == Some(9);
  }

  /** `accesskey:x` matches the second pattern but shows no anchor as the list is written, so
      the early return lets its value through. */
  lemma MissedSpelling()
    ensures Redacted(LEAK) == LEAK && FullPath(LEAK) != LEAK && !ValuesMarked(Redacted(LEAK))
  {
    hide HasAnchor;
    hide KeyValueMatch;
    hide FullPath;
    hide KeyEnd;
    LeakHasNoAnchor();
    LeakSpan();
    KeyValueMatchIs(START, LEAK, [Access, Key], 9, 9, 10, 11);
    PrefilterExact(LEAK);
    assert IsAscii(LEAK);
    assert LEAK[0..] == LEAK && |LEAK[10..]| == 1;
    assert KeyValueSpan(Before(START, LEAK, 0), LEAK[0..], [Access, Key], 9, 9, 10, 11);
  }
}
