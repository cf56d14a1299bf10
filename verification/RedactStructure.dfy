/** `redact_structure`: the walk over nested values, and the field names it treats as secret. */
module RedactStructure {
  import opened SecretPatterns
  import opened BearerSafety
  import opened UrlSafety
  import opened KeyValueSafety
  import opened Redactor

  // ---------------------------------------------------------------- field names

  function StripLeft(t: Text): Text {
    t[RunTo(SPACE, t, 0)..]
  }

  function StripRight(t: Text): Text {
    if t != "" && IsSpace(t[|t| - 1]) then StripRight(t[..|t| - 1]) else t
  }

  /** `str.strip`. */
  function Strip(t: Text): Text { StripRight(StripLeft(t)) }

  predicate IsUpper(c: char) { 'A' <= c <= 'Z' }
  predicate IsLowerOrDigit(c: char) { 'a' <= c <= 'z' || '0' <= c <= '9' }

  /** An underscore goes between a lower-case letter or digit and an upper-case letter. */
  function SplitCamel(prev: char, t: Text): Text
    decreases |t|
  {
    if t == "" then "" else
      (if IsLowerOrDigit(prev) && IsUpper(t[0]) then "_" else "") + [t[0]] + SplitCamel(t[0], t[1..])
  }

  function FoldChar(c: char): char {
    if c == '-' || c == ' ' then '_' else Lower(c)
  }

  function Fold(t: Text): Text {
    if t == "" then "" else [FoldChar(t[0])] + Fold(t[1..])
  }

  function NormaliseKey(key: Text): Text {
    Fold(SplitCamel(START, Strip(key)))
  }

  const SECRET_KEY_NAMES: set<Text> := {
    "password", "passwd", "pwd", "secret", "secret_key", "secret_access_key", "access_key", "access_key_id",
    "apikey", "api_key", "token", "access_token", "refresh_token", "auth_token", "authorization",
    "credential", "credentials", "private_key", "client_secret"}

  predicate IsSecretKey(key: Text) { NormaliseKey(key) in SECRET_KEY_NAMES }

  // Names built from lower-case words.

  /** Two letters at least: a camel-cased run of single letters is not split. */
  predicate IsWordOf(w: Text) { |w| >= 2 && forall i | 0 <= i < |w| :: 'a' <= w[i] <= 'z' }
  predicate AreWords(ws: seq<Text>) { ws != [] && forall i | 0 <= i < |ws| :: IsWordOf(ws[i]) }

  /** `secret_key`, `secret-key`, `secret key`. */
  function Joined(sep: char, ws: seq<Text>): Text
    requires ws != []
  {
    if |ws| == 1 then ws[0] else ws[0] + [sep] + Joined(sep, ws[1..])
  }

  function Capitalised(w: Text): Text
    requires IsWordOf(w)
  {
    [(w[0] as int - 32) as char] + w[1..]
  }

  /** `secretKey`. */
  function Camel(ws: seq<Text>): Text
    requires AreWords(ws)
  {
    ws[0] + Humps(ws[1..])
  }

  function Humps(ws: seq<Text>): Text
    requires ws == [] || AreWords(ws)
  {
    if ws == [] then "" else Capitalised(ws[0]) + Humps(ws[1..])
  }

  lemma {:induction false} StripKeeps(t: Text)
    requires t == "" || (!IsSpace(t[0]) && !IsSpace(t[|t| - 1]))
    ensures Strip(t) == t
  {
    assert t[0..] == t;
  }

  predicate NoUpper(t: Text) { forall i | 0 <= i < |t| :: !IsUpper(t[i]) }

  lemma {:induction false} SplitsNothing(prev: char, x: Text, y: Text)
    requires NoUpper(x)
    ensures SplitCamel(prev, x + y) == x + SplitCamel(After(prev, x), y)
    decreases |x|
  {
    if x == "" {
      assert x + y == y;
    } else {
      assert (x + y)[1..] == x[1..] + y;
      SplitsNothing(x[0], x[1..], y);
      assert [x[0]] + x[1..] == x;
    }
  }

  lemma {:induction false} FoldJoins(x: Text, y: Text)
    ensures Fold(x + y) == Fold(x) + Fold(y)
  {
    if x == "" {
      assert x + y == y;
    } else {
      assert (x + y)[1..] == x[1..] + y;
      FoldJoins(x[1..], y);
    }
  }

  predicate Folded(c: char) { !IsUpper(c) && c != '-' && c != ' ' }

  lemma {:induction false} FoldIsPointwise(t: Text)
    ensures |Fold(t)| == |t| && forall i | 0 <= i < |t| :: Fold(t)[i] == FoldChar(t[i]) && Folded(Fold(t)[i])
  {
    if t != "" {
      FoldIsPointwise(t[1..]);
      assert forall i | 1 <= i < |t| :: t[i] == t[1..][i - 1] && Fold(t)[i] == Fold(t[1..])[i - 1];
    }
  }

  lemma FoldKeeps(t: Text)
    requires forall i | 0 <= i < |t| :: Folded(t[i])
    ensures Fold(t) == t
  {
    FoldIsPointwise(t);
  }

  lemma {:induction false} StripRightEnds(t: Text)
    ensures StripRight(t) <= t
    ensures StripRight(t) == "" || !IsSpace(StripRight(t)[|StripRight(t)| - 1])
  {
    if t != "" && IsSpace(t[|t| - 1]) {
      StripRightEnds(t[..|t| - 1]);
    }
  }

  lemma {:induction false} SplitEnds(prev: char, t: Text)
    requires t != ""
    ensures var s := SplitCamel(prev, t); s != "" && s[|s| - 1] == t[|t| - 1]
    ensures !IsLowerOrDigit(prev) ==> SplitCamel(prev, t)[0] == t[0]
    decreases |t|
  {
    if t[1..] != "" {
      SplitEnds(t[0], t[1..]);
    }
  }

  /** A normalised name is its own normal form. */
  lemma NormaliseIdempotent(key: Text)
    ensures NormaliseKey(NormaliseKey(key)) == NormaliseKey(key)
  {
    var s := Strip(key);
    var n := NormaliseKey(key);
    StripRightEnds(StripLeft(key));
    FoldIsPointwise(SplitCamel(START, s));
    if s != "" {
      SplitEnds(START, s);
      assert s[0] == StripLeft(key)[0];
    }
    StripKeeps(n);
    SplitsNothing(START, n, "");
    assert n + "" == n;
    FoldKeeps(n);
  }

  lemma {:induction false} JoinedChars(sep: char, ws: seq<Text>)
    requires AreWords(ws) && !IsUpper(sep)
    ensures var t := Joined(sep, ws);
            t != "" && 'a' <= t[0] <= 'z' && 'a' <= t[|t| - 1] <= 'z' && NoUpper(t)
  {
    if |ws| > 1 {
      JoinedChars(sep, ws[1..]);
    }
  }

  lemma FoldSeparator(sep: char)
    requires sep in {'_', '-', ' '}
    ensures Fold([sep]) == "_"
  {
  }

  lemma {:induction false} FoldJoined(sep: char, ws: seq<Text>)
    requires AreWords(ws) && sep in {'_', '-', ' '}
    ensures Fold(Joined(sep, ws)) == Joined('_', ws)
  {
    FoldKeeps(ws[0]);
    if |ws| > 1 {
      FoldJoined(sep, ws[1..]);
      FoldSeparator(sep);
      hide Fold;
      FoldJoins(ws[0] + [sep], Joined(sep, ws[1..]));
      FoldJoins(ws[0], [sep]);
    }
  }

  lemma OneHump(prev: char, w: Text, rest: Text)
    requires IsWordOf(w) && IsLowerOrDigit(prev)
    ensures SplitCamel(prev, Capitalised(w) + rest) == "_" + (Capitalised(w) + SplitCamel(w[|w| - 1], rest))
  {
    var cap := Capitalised(w)[0];
    var t := Capitalised(w) + rest;
    assert t[0] == cap && t[1..] == w[1..] + rest;
    SplitsNothing(cap, w[1..], rest);
    assert Capitalised(w) == [cap] + w[1..];
    hide Capitalised;
    var more := SplitCamel(w[|w| - 1], rest);
    assert SplitCamel(prev, t) == "_" + [cap] + (w[1..] + more);
    assert "_" + [cap] + (w[1..] + more) == "_" + (([cap] + w[1..]) + more);
  }

  lemma FoldHump(w: Text, more: Text)
    requires IsWordOf(w)
    ensures Fold("_" + (Capitalised(w) + more)) == "_" + (w + Fold(more))
  {
    FoldJoins("_", Capitalised(w) + more);
    FoldJoins(Capitalised(w), more);
    FoldIsPointwise(Capitalised(w));
    assert Fold(Capitalised(w)) == w;
    assert Fold("_") == "_";
  }

  lemma {:induction false} HumpsFold(prev: char, ws: seq<Text>)
    requires AreWords(ws) && IsLowerOrDigit(prev)
    ensures Fold(SplitCamel(prev, Humps(ws))) == "_" + Joined('_', ws)
    decreases |ws|
  {
    hide Capitalised;
    hide SplitCamel;
    hide Fold;
    var w, rest := ws[0], Humps(ws[1..]);
    OneHump(prev, w, rest);
    FoldHump(w, SplitCamel(w[|w| - 1], rest));
    if |ws| > 1 {
      HumpsFold(w[|w| - 1], ws[1..]);
      assert w + ("_" + Joined('_', ws[1..])) == Joined('_', ws);
    } else {
      FoldNothing(w[|w| - 1]);
      assert w + "" == w;
    }
  }

  lemma FoldNothing(prev: char)
    ensures Fold(SplitCamel(prev, "")) == ""
  {
  }

  lemma {:induction false} HumpsEnd(ws: seq<Text>)
    requires AreWords(ws)
    ensures Humps(ws) != "" && 'a' <= Humps(ws)[|Humps(ws)| - 1] <= 'z'
  {
    if |ws| > 1 {
      HumpsEnd(ws[1..]);
    }
  }

  /** Snake case, kebab case, words with spaces and camel case all come to the snake-case
      name, so a field is secret in each of them or in none. */
  lemma SpellingsAgree(ws: seq<Text>)
    requires AreWords(ws)
    ensures forall sep | sep in {'_', '-', ' '} :: NormaliseKey(Joined(sep, ws)) == Joined('_', ws)
    ensures NormaliseKey(Camel(ws)) == Joined('_', ws)
  {
    forall sep | sep in {'_', '-', ' '}
      ensures NormaliseKey(Joined(sep, ws)) == Joined('_', ws)
    {
      var t := Joined(sep, ws);
      JoinedChars(sep, ws);
      FoldJoined(sep, ws);
      StripKeeps(t);
      SplitsNothing(START, t, "");
      assert t + "" == t;
    }
    CamelAgrees(ws);
  }

  lemma CamelEnds(ws: seq<Text>)
    requires AreWords(ws)
    ensures Camel(ws) != "" && !IsSpace(Camel(ws)[0]) && !IsSpace(Camel(ws)[|Camel(ws)| - 1])
  {
    hide Humps;
    if |ws| > 1 {
      HumpsEnd(ws[1..]);
    } else {
      assert Humps(ws[1..]) == "" by { NoHumps(); }
    }
  }

  lemma NoHumps()
    ensures Humps([]) == ""
  {
  }

  lemma CamelAgrees(ws: seq<Text>)
    requires AreWords(ws)
    ensures NormaliseKey(Camel(ws)) == Joined('_', ws)
  {
    var w, rest := ws[0], Humps(ws[1..]);
    CamelEnds(ws);
    StripKeeps(Camel(ws));
    hide Strip;
    hide Humps;
    SplitsNothing(START, w, rest);
    FoldJoins(w, SplitCamel(w[|w| - 1], rest));
    FoldKeeps(w);
    hide Fold;
    hide SplitCamel;
    if |ws| > 1 {
      HumpsFold(w[|w| - 1], ws[1..]);
      assert w + ("_" + Joined('_', ws[1..])) == Joined('_', ws);
    } else {
      NoHumps();
      FoldNothing(w[|w| - 1]);
      assert w + "" == w;
    }
  }

  // ---------------------------------------------------------------- nested values

  datatype FieldName = Name(text: Text) | Other(id: int)

  /** What a tool may return: strings, anything that is no container, dicts, lists. */
  datatype Json =
    | Str(text: Text)
    | Atom(id: int)
    | Dict(items: seq<(FieldName, Json)>)
    | List(elements: seq<Json>)

  predicate MarksSecret(name: FieldName, item: Json) {
    name.Name? && IsSecretKey(name.text) && item.Str?
  }

  function RedactStructure(j: Json): Json {
    match j
    case Str(t) => Str(Redacted(t))
    case Dict(items) =>
      Dict(seq(|items|, i requires 0 <= i < |items| =>
        (items[i].0, if MarksSecret(items[i].0, items[i].1) then Str(MARK) else RedactStructure(items[i].1))))
    case List(elements) =>
      List(seq(|elements|, i requires 0 <= i < |elements| => RedactStructure(elements[i])))
    case Atom(_) => j
  }

  /** Same containers, same names in the same order, same leaves but for the text of strings. */
  ghost predicate SameShape(j: Json, k: Json) {
    match j
    case Str(_) => k.Str?
    case Atom(_) => k == j
    case Dict(items) =>
      k.Dict? && |k.items| == |items|
      && forall i | 0 <= i < |items| :: k.items[i].0 == items[i].0 && SameShape(items[i].1, k.items[i].1)
    case List(elements) =>
      k.List? && |k.elements| == |elements|
      && forall i | 0 <= i < |elements| :: SameShape(elements[i], k.elements[i])
  }

  /** `values` asks for the marker in every `name=value` too. */
  ghost predicate SafeText(t: Text, values: bool) {
    BearerFree(t) && UrlSecretsMarked(t) && (values ==> ValuesMarked(t))
  }

  /** A string under a secret name is the marker, every other string is safe to show. */
  ghost predicate Scrubbed(j: Json, values: bool) {
    match j
    case Str(t) => SafeText(t, values)
    case Atom(_) => true
    case Dict(items) =>
      forall i | 0 <= i < |items| ::
        if MarksSecret(items[i].0, items[i].1) then items[i].1 == Str(MARK) else Scrubbed(items[i].1, values)
    case List(elements) => forall i | 0 <= i < |elements| :: Scrubbed(elements[i], values)
  }

  /** `p` holds of every string in `j`. */
  ghost predicate EveryText(j: Json, p: Text -> bool) {
    match j
    case Str(t) => p(t)
    case Atom(_) => true
    case Dict(items) => forall i | 0 <= i < |items| :: EveryText(items[i].1, p)
    case List(elements) => forall i | 0 <= i < |elements| :: EveryText(elements[i], p)
  }

  predicate ShowsNoMissedSpelling(t: Text) { !HasAnchor(MISSED, t) }

  /** The walk keeps the shape and leaves nothing readable. The two missed spellings are the
      only way a `name=value` in free text keeps its value. */
  lemma {:induction false} StructureIsScrubbed(j: Json, values: bool)
    requires values ==> EveryText(j, ShowsNoMissedSpelling)
    ensures SameShape(j, RedactStructure(j)) && Scrubbed(RedactStructure(j), values)
  {
    hide Redacted;
    hide SafeText;
    hide IsSecretKey;
    match j
    case Str(t) => TextIsSafe(t, values);
    case Atom(_) =>
    case Dict(items) =>
      forall i | 0 <= i < |items|
        ensures SameShape(items[i].1, RedactStructure(items[i].1)) && Scrubbed(RedactStructure(items[i].1), values)
      {
        StructureIsScrubbed(items[i].1, values);
      }
    case List(elements) =>
      forall i | 0 <= i < |elements|
        ensures SameShape(elements[i], RedactStructure(elements[i])) && Scrubbed(RedactStructure(elements[i]), values)
      {
        StructureIsScrubbed(elements[i], values);
      }
  }

  lemma TextIsSafe(t: Text, values: bool)
    requires values ==> ShowsNoMissedSpelling(t)
    ensures SafeText(Redacted(t), values)
  {
    hide Redacted;
    RedactedIsSafe(t);
  }

  predicate ShowsNoAnchor(t: Text) { !HasAnchor(ANCHORS + MISSED, t) }

  /** No string sits directly under a secret name. */
  ghost predicate NamesNoSecret(j: Json) {
    match j
    case Str(_) => true
    case Atom(_) => true
    case Dict(items) => forall i | 0 <= i < |items| :: !MarksSecret(items[i].0, items[i].1) && NamesNoSecret(items[i].1)
    case List(elements) => forall i | 0 <= i < |elements| :: NamesNoSecret(elements[i])
  }

  /** A value with no secret names and no anchor in its texts comes back as it went in. */
  lemma {:induction false} HarmlessIsUntouched(j: Json)
    requires EveryText(j, ShowsNoAnchor) && NamesNoSecret(j)
    ensures RedactStructure(j) == j
  {
    hide Redacted;
    hide IsSecretKey;
    match j
    case Str(t) => HarmlessText(t);
    case Atom(_) =>
    case Dict(items) =>
      forall i | 0 <= i < |items|
        ensures RedactStructure(items[i].1) == items[i].1
      {
        HarmlessIsUntouched(items[i].1);
      }
      assert RedactStructure(j).items == items;
    case List(elements) =>
      forall i | 0 <= i < |elements|
        ensures RedactStructure(elements[i]) == elements[i]
      {
        HarmlessIsUntouched(elements[i]);
      }
      assert RedactStructure(j).elements == elements;
  }

  lemma HarmlessText(t: Text)
    requires ShowsNoAnchor(t)
    ensures Redacted(t) == t
  {
    PrefilterSound(t);
  }
}
