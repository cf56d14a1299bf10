/** The three substitution passes of the redactor as explicit matchers.

    A matcher looks at the head of a text, given the character before it; `START` stands for
    the beginning of the input. Characters outside ASCII belong to no class but `VALUE`,
    `USER` and `PLAIN`, so the model is faithful for ASCII text. */
module SecretPatterns {
  import opened Options

  type Text = seq<char>

  const MARK: Text := "[REDACTED]"
  const START := ' '

  function Lower(c: char): char {
    if 'A' <= c <= 'Z' then (c as int + 32) as char else c
  }

  predicate IsLetter(c: char) { 'a' <= c <= 'z' || 'A' <= c <= 'Z' }
  predicate IsAlnum(c: char) { IsLetter(c) || '0' <= c <= '9' }
  predicate IsWord(c: char) { IsAlnum(c) || c == '_' }
  predicate IsSpace(c: char) { 9 <= c as int <= 13 || 28 <= c as int <= 32 }

  predicate EndsValue(c: char) {
    c == ',' || c == ';' || c == '\'' || c == '\"' || c == '&' || c == ')' || c == '}' || c == ']'
  }

  predicate IsDelimiter(c: char) { c == '=' || c == ':' }

  /** The character classes the patterns repeat. */
  datatype Class = SPACE | TOKEN | VALUE | SCHEME | USER | PLAIN

  predicate In(k: Class, c: char) {
    match k
    case SPACE => IsSpace(c)
    case TOKEN => IsAlnum(c) || c == '.' || c == '_' || c == '-'
    case VALUE => !IsSpace(c) && !EndsValue(c)
    case SCHEME => IsAlnum(c) || c == '+' || c == '.' || c == '-'
    case USER => !IsSpace(c) && c != ':' && c != '/' && c != '@'
    case PLAIN => !IsSpace(c) && c != '@'
  }

  predicate All(k: Class, t: Text, lo: nat, hi: nat)
    requires hi <= |t|
  {
    forall i | lo <= i < hi :: In(k, t[i])
  }

  /** Where a greedy repetition of `k` that starts at `i` stops. */
  function RunTo(k: Class, t: Text, i: nat): (j: nat)
    requires i <= |t|
    ensures i <= j <= |t|
    ensures All(k, t, i, j)
    ensures j == |t| || !In(k, t[j])
    decreases |t| - i
  {
    if i < |t| && In(k, t[i]) then RunTo(k, t, i + 1) else i
  }

  /** `w` is lower case and occurs in `t` at `i`, ignoring case. */
  predicate CiAt(w: Text, t: Text, i: nat) {
    i + |w| <= |t| && forall x | 0 <= x < |w| :: Lower(t[i + x]) == w[x]
  }

  /** A match keeps `t[..keep]`, replaces `t[keep..cut]` by the marker and keeps `t[cut..end]`;
      the scan goes on at `end`. */
  datatype Span = Span(keep: nat, cut: nat, end: nat)

  predicate Fits(sp: Span, t: Text) {
    0 < sp.keep < sp.cut <= sp.end <= |t|
  }

  const BEARER: Text := "bearer"

  function BearerMatch(prev: char, t: Text): (r: Option<Span>)
    ensures r.Some? ==> Fits(r.value, t)
  {
    if IsWord(prev) || !CiAt(BEARER, t, 0) then None else
      var j := RunTo(SPACE, t, 6);
      var k := RunTo(TOKEN, t, j);
      if 6 < j && j + 8 <= k then Some(Span(j, k, k)) else None
  }

  /** The words key names are made of. */
  datatype Word =
    | Password | Passwd | Pwd | Secret | Access | Key | Id
    | Private | Api | Token | Authorization | Credential

  function Spell(w: Word): Text {
    match w
    case Password => "password"
    case Passwd => "passwd"
    case Pwd => "pwd"
    case Secret => "secret"
    case Access => "access"
    case Key => "key"
    case Id => "id"
    case Private => "private"
    case Api => "api"
    case Token => "token"
    case Authorization => "authorization"
    case Credential => "credential"
  }

  /** The key names in the order the alternation tries them; adjacent words may be joined by
      one `_` or `-`. */
  const KEYWORDS: seq<seq<Word>> := [
    [Password], [Passwd], [Pwd],
    [Secret, Access, Key], [Access, Key, Id], [Access, Key],
    [Secret, Key], [Private, Key], [Api, Key],
    [Secret], [Token], [Authorization], [Credential]]

  predicate IsSeparator(c: char) { c == '_' || c == '-' }

  /** Lower-case letters only; no key word starts with the `R` of the marker. */
  predicate PlainWord(w: Text) {
    w != "" && w[0] != 'r' && forall i | 0 <= i < |w| :: 'a' <= w[i] <= 'z'
  }

  function Spelled(ws: seq<Word>): (r: seq<Text>)
    ensures |r| == |ws| && forall w | w in r :: PlainWord(w)
  {
    if ws == [] then [] else [Spell(ws[0])] + Spelled(ws[1..])
  }

  /** Where a name of these words ends if it stands in `t` at `i`. */
  function KeyEnd(words: seq<Text>, t: Text, i: nat): (r: Option<nat>)
    requires i <= |t|
    ensures r.Some? ==> i <= r.value <= |t|
  {
    if words == [] then Some(i)
    else if !CiAt(words[0], t, i) then None
    else
      var n := i + |words[0]|;
      KeyEnd(words[1..], t, if |words| > 1 && n < |t| && IsSeparator(t[n]) then n + 1 else n)
  }

  /** Where the value behind a delimiter at `i` starts and ends: spaces, `=` or `:`, spaces,
      value. */
  function DelimitedValue(t: Text, i: nat): (r: Option<(nat, nat)>)
    requires i <= |t|
    ensures r.Some? ==> i < r.value.0 < r.value.1 <= |t|
  {
    var a := RunTo(SPACE, t, i);
    if a == |t| || !IsDelimiter(t[a]) then None else
      var b := RunTo(SPACE, t, a + 1);
      var c := RunTo(VALUE, t, b);
      if b < c then Some((b, c)) else None
  }

  function KeywordMatch(names: seq<seq<Word>>, t: Text): (r: Option<Span>)
    ensures r.Some? ==> Fits(r.value, t)
  {
    if names == [] then None else
      var e := KeyEnd(Spelled(names[0]), t, 0);
      if e.Some? && DelimitedValue(t, e.value).Some? then
        var (b, c) := DelimitedValue(t, e.value).value;
        Some(Span(b, c, c))
      else
        KeywordMatch(names[1..], t)
  }

  function KeyValueMatch(prev: char, t: Text): (r: Option<Span>)
    ensures r.Some? ==> Fits(r.value, t)
  {
    if IsAlnum(prev) then None else KeywordMatch(KEYWORDS, t)
  }

  predicate SchemeEnds(t: Text, a: nat) {
    a + 3 <= |t| && t[a] == ':' && t[a + 1] == '/' && t[a + 2] == '/'
  }

  function UrlMatch(prev: char, t: Text): (r: Option<Span>)
    ensures r.Some? ==> Fits(r.value, t)
  {
    if t == "" || IsWord(prev) || !IsLetter(t[0]) then None else
      var a := RunTo(SCHEME, t, 1);
      if !SchemeEnds(t, a) then None else
        var b := RunTo(USER, t, a + 3);
        if b == |t| || t[b] != ':' then None else
          var d := RunTo(PLAIN, t, b + 1);
          if b + 1 < d < |t| && t[d] == '@' then Some(Span(b + 1, d, d + 1)) else None
  }

  /** Any pattern, as what it does at the head of a text. */
  type Matcher = m: (char, Text) -> Option<Span> | Proper(m) witness (c, t) => None

  ghost predicate Proper(m: (char, Text) -> Option<Span>) {
    forall prev, t :: m(prev, t).Some? ==> Fits(m(prev, t).value, t)
  }

  /** One pass: the leftmost match is rewritten and the scan resumes behind it. */
  function Sub(m: Matcher, prev: char, t: Text): Text
    decreases |t|
  {
    if t == "" then ""
    else if m(prev, t).None? then [t[0]] + Sub(m, t[0], t[1..])
    else
      var sp := m(prev, t).value;
      t[..sp.keep] + Gap(sp, t) + Sub(m, t[sp.end - 1], t[sp.end..])
  }

  /** The marker and whatever of the match is kept behind it. */
  function Gap(sp: Span, t: Text): Text
    requires Fits(sp, t)
  {
    MARK + t[sp.cut..sp.end]
  }

  /** The pattern matches somewhere in `t`. */
  predicate HasMatch(m: Matcher, prev: char, t: Text)
    decreases |t|
  {
    t != "" && (m(prev, t).Some? || HasMatch(m, t[0], t[1..]))
  }

  /** The three patterns in the order they are applied. */
  const PATTERNS: seq<Matcher> := [BearerMatch, KeyValueMatch, UrlMatch]

  /** The character before position `i`. */
  function Before(prev: char, t: Text, i: nat): char
    requires i <= |t|
  {
    if i == 0 then prev else t[i - 1]
  }

  // ---------------------------------------------------------------- what the patterns say

  /** `\b(bearer\s+)([a-z0-9._-]{8,})` at the head of `t`, the groups ending at `j` and `k`. */
  predicate BearerSpan(prev: char, t: Text, j: nat, k: nat) {
    && !IsWord(prev)
    && CiAt(BEARER, t, 0)
    && 6 < j && j + 8 <= k <= |t|
    && All(SPACE, t, 6, j) && All(TOKEN, t, j, k)
  }

  /** `(?<![A-Za-z0-9])(name)(\s*[=:]\s*)(value)`: the name ends at `e`, the delimiter is at
      `a`, the value is `t[b..c]`. */
  predicate KeyValueSpan(prev: char, t: Text, ws: seq<Word>, e: nat, a: nat, b: nat, c: nat) {
    && !IsAlnum(prev)
    && ws in KEYWORDS && KeyEnd(Spelled(ws), t, 0) == Some(e)
    && e <= a < b < c <= |t|
    && All(SPACE, t, e, a) && IsDelimiter(t[a]) && All(SPACE, t, a + 1, b) && All(VALUE, t, b, c)
  }

  /** `\b(scheme://user:)(secret)(@)`: the scheme ends at `a`, the secret is `t[c..d]`. */
  predicate UrlSpan(prev: char, t: Text, a: nat, c: nat, d: nat) {
    && !IsWord(prev)
    && 1 <= a && a + 3 < c < d < |t|
    && IsLetter(t[0]) && All(SCHEME, t, 1, a) && SchemeEnds(t, a)
    && All(USER, t, a + 3, c - 1) && t[c - 1] == ':'
    && All(PLAIN, t, c, d) && t[d] == '@'
  }
}
