/** The field names whose strings are hidden, spelled out, beside the names free text may give
    a value to. */
module SecretNames {
  import opened SecretPatterns
  import opened Redactor
  import opened Structure = RedactStructure
  import opened NamedValues

  /** The secret names, word by word. */
  predicate SecretWords(ws: seq<Text>) {
    || ws == ["password"] || ws == ["passwd"] || ws == ["pwd"] || ws == ["secret"] || ws == ["token"]
    || ws == ["authorization"] || ws == ["credential"] || ws == ["credentials"] || ws == ["apikey"]
    || ws == ["secret", "key"] || ws == ["access", "key"] || ws == ["private", "key"] || ws == ["api", "key"]
    || ws == ["access", "token"] || ws == ["refresh", "token"] || ws == ["auth", "token"] || ws == ["client", "secret"]
    || ws == ["secret", "access", "key"] || ws == ["access", "key", "id"]
  }

  lemma JoinedIs(ws: seq<Text>)
    requires ws != []
    ensures |ws| == 1 ==> Joined('_', ws) == ws[0]
    ensures |ws| == 2 ==> Joined('_', ws) == ws[0] + "_" + ws[1]
    ensures |ws| == 3 ==> Joined('_', ws) == ws[0] + "_" + (ws[1] + "_" + ws[2])
  {
    if |ws| > 1 {
      assert Joined('_', ws) == ws[0] + ['_'] + Joined('_', ws[1..]);
      if |ws| > 2 {
        assert Joined('_', ws[1..]) == ws[1] + ['_'] + Joined('_', ws[2..]);
      }
    }
  }

  lemma {:induction false} JoinedOnce(vs: seq<Text>, ws: seq<Text>)
    requires AreWords(vs) && AreWords(ws) && Joined('_', vs) == Joined('_', ws)
    ensures vs == ws
  {
    var v, w := Joined('_', vs), Joined('_', ws);
    FirstWord(vs);
    FirstWord(ws);
    assert |vs[0]| == |ws[0]|;
    assert vs[0] == v[..|vs[0]|] == w[..|ws[0]|] == ws[0];
    if |vs| > 1 {
      assert Joined('_', vs[1..]) == v[|vs[0]| + 1..] == w[|ws[0]| + 1..] == Joined('_', ws[1..]);
      JoinedOnce(vs[1..], ws[1..]);
      assert vs == [vs[0]] + vs[1..] && ws == [ws[0]] + ws[1..];
    }
  }

  lemma FirstWord(ws: seq<Text>)
    requires AreWords(ws)
    ensures var t := Joined('_', ws);
            && |ws[0]| <= |t| && t[..|ws[0]|] == ws[0] && (|t| == |ws[0]| <==> |ws| == 1)
            && (|ws| > 1 ==> t[|ws[0]|] == '_' && t[|ws[0]| + 1..] == Joined('_', ws[1..]))
            && forall i | 0 <= i < |ws[0]| :: t[i] != '_'
  {
    var t := Joined('_', ws);
    assert forall i | 0 <= i < |ws[0]| :: t[i] == ws[0][i];
  }

  lemma SecretWordsAreWords(ws: seq<Text>)
    requires SecretWords(ws)
    ensures AreWords(ws) && |ws| <= 3
  {
    assert IsWordOf("password") && IsWordOf("passwd") && IsWordOf("pwd") && IsWordOf("secret") && IsWordOf("token");
    assert IsWordOf("authorization") && IsWordOf("credential") && IsWordOf("credentials") && IsWordOf("apikey");
    assert IsWordOf("key") && IsWordOf("access") && IsWordOf("private") && IsWordOf("api") && IsWordOf("refresh");
    assert IsWordOf("auth") && IsWordOf("client") && IsWordOf("id");
    hide IsWordOf;
  }

  lemma SecretWordsAreListed(ws: seq<Text>)
    requires SecretWords(ws)
    ensures Joined('_', ws) in SECRET_KEY_NAMES
  {
    hide Joined;
    JoinedIs(ws);
    assert "secret" + "_" + "key" == "secret_key" && "access" + "_" + "key" == "access_key";
    assert "private" + "_" + "key" == "private_key" && "api" + "_" + "key" == "api_key";
    assert "access" + "_" + "token" == "access_token" && "refresh" + "_" + "token" == "refresh_token";
    assert "auth" + "_" + "token" == "auth_token" && "client" + "_" + "secret" == "client_secret";
    assert "secret" + "_" + ("access" + "_" + "key") == "secret_access_key";
    assert "access" + "_" + ("key" + "_" + "id") == "access_key_id";
  }

  /** The listed names with more than one word. */
  predicate Compound(t: Text) {
    || t == "secret_key" || t == "access_key" || t == "private_key" || t == "api_key" || t == "access_token"
    || t == "refresh_token" || t == "auth_token" || t == "client_secret" || t == "secret_access_key"
    || t == "access_key_id"
  }

  lemma ListedAre(t: Text)
    requires t in SECRET_KEY_NAMES
    ensures SecretWords([t]) || Compound(t)
  {
  }

  /** The words of a compound. */
  function Parts(t: Text): seq<Text>
    requires Compound(t)
  {
    if t == "secret_key" then ["secret", "key"] else if t == "access_key" then ["access", "key"]
    else if t == "private_key" then ["private", "key"] else if t == "api_key" then ["api", "key"]
    else if t == "access_token" then ["access", "token"] else if t == "refresh_token" then ["refresh", "token"]
    else if t == "auth_token" then ["auth", "token"] else if t == "client_secret" then ["client", "secret"]
    else if t == "secret_access_key" then ["secret", "access", "key"] else ["access", "key", "id"]
  }

  lemma PartsAreSecret(t: Text)
    requires Compound(t)
    ensures SecretWords(Parts(t))
  {
  }

  lemma PartsJoin(t: Text)
    requires Compound(t)
    ensures Joined('_', Parts(t)) == t
  {
    hide Joined;
    JoinedIs(Parts(t));
  }

  lemma ListedAreSecretWords(t: Text) returns (ws: seq<Text>)
    requires t in SECRET_KEY_NAMES
    ensures SecretWords(ws) && Joined('_', ws) == t
  {
    ListedAre(t);
    hide SECRET_KEY_NAMES;
    hide SecretWords;
    hide Compound;
    hide Parts;
    hide Joined;
    if SecretWords([t]) {
      ws := [t];
      JoinedIs(ws);
    } else {
      PartsAreSecret(t);
      PartsJoin(t);
      ws := Parts(t);
    }
  }

  /** Exactly the listed rows of words are secret names, in snake case, kebab case, with spaces
      and in camel case. */
  lemma SecretIffWords(ws: seq<Text>)
    requires AreWords(ws)
    ensures IsSecretKey(Camel(ws)) <==> SecretWords(ws)
    ensures forall sep | sep in {'_', '-', ' '} :: IsSecretKey(Joined(sep, ws)) <==> SecretWords(ws)
  {
    hide NormaliseKey;
    hide SECRET_KEY_NAMES;
    hide SecretWords;
    SpellingsAgree(ws);
    if Joined('_', ws) in SECRET_KEY_NAMES {
      var vs := ListedAreSecretWords(Joined('_', ws));
      SecretWordsAreWords(vs);
      JoinedOnce(vs, ws);
    }
    if SecretWords(ws) {
      SecretWordsAreListed(ws);
    }
  }

  /** Normalised, the name is one of the rows of words joined by underscores. */
  ghost predicate SpellsSecret(key: Text) {
    exists ws | SecretWords(ws) :: ws != [] && NormaliseKey(key) == Joined('_', ws)
  }

  /** A field name is secret if, stripped, split at its humps and in lower case, it is one of
      the listed rows of words joined by underscores. */
  lemma SecretIffNormal(key: Text)
    ensures IsSecretKey(key) <==> SpellsSecret(key)
  {
    hide NormaliseKey;
    hide SECRET_KEY_NAMES;
    hide SecretWords;
    if IsSecretKey(key) {
      var ws := ListedAreSecretWords(NormaliseKey(key));
      SecretWordsAreWords(ws);
    }
    forall ws | SecretWords(ws) && ws != [] ensures Joined('_', ws) in SECRET_KEY_NAMES { SecretWordsAreListed(ws); }
  }

  lemma SplitTwo(c: char, u: char)
    requires 'A' <= u <= 'Z'
    ensures SplitCamel(START, [c, u]) == if IsLowerOrDigit(c) then [c, '_', u] else [c, u]
  {
    assert [c, u][1..] == [u] && [u][1..] == "";
    assert SplitCamel(c, [u]) == if IsLowerOrDigit(c) then ['_', u] else [u];
  }

  /** A name is split exactly between a small letter or digit and a capital. */
  lemma HumpIs(c: char, u: char)
    requires 'A' <= u <= 'Z' && 33 <= c as int < 128
    ensures NormaliseKey([c, u]) ==
            if 'a' <= c <= 'z' || '0' <= c <= '9' then [c, '_', (u as int + 32) as char]
            else [if c == '-' then '_' else if 'A' <= c <= 'Z' then (c as int + 32) as char else c,
                  (u as int + 32) as char]
  {
    StripKeeps([c, u]);
    SplitTwo(c, u);
    FoldTwo(c, u);
    hide Strip;
    hide SplitCamel;
    hide Fold;
  }

  lemma FoldTwo(c: char, u: char)
    ensures Fold([c, u]) == [FoldChar(c), FoldChar(u)]
    ensures Fold([c, '_', u]) == [FoldChar(c), '_', FoldChar(u)]
  {
    hide FoldChar;
    FoldJoins([c], [u]);
    FoldJoins([c], ['_', u]);
    FoldJoins(['_'], [u]);
    FoldOne(c);
    FoldOne('_');
    FoldOne(u);
    hide Fold;
    assert [c, u] == [c] + [u] && [c, '_', u] == [c] + ['_', u] && ['_', u] == ['_'] + [u];
    assert FoldChar('_') == '_' by { FoldUnderscore(); }
  }

  lemma FoldOne(c: char)
    ensures Fold([c]) == [FoldChar(c)]
  {
    assert [c][1..] == "" && Fold("") == "";
  }

  lemma FoldUnderscore()
    ensures FoldChar('_') == '_'
  {
  }

  // ---------------------------------------------------------------- the names of free text

  lemma Normalised(n: Text, ws: seq<Text>)
    requires AreWords(ws) && n != "" && !IsSpace(n[0]) && !IsSpace(n[|n| - 1])
    requires NoUpper(n) || (forall i | 0 <= i < |n| :: !IsLowerOrDigit(n[i]))
    requires Fold(n) == Joined('_', ws)
    ensures NormaliseKey(n) == Joined('_', ws)
  {
    StripKeeps(n);
    hide Strip;
    hide Fold;
    if NoUpper(n) {
      SplitsNothing(START, n, "");
      assert n + "" == n;
    } else {
      NoHumpsInCapitals(START, n);
    }
  }

  lemma {:induction false} NoHumpsInCapitals(prev: char, n: Text)
    requires !IsLowerOrDigit(prev) && forall i | 0 <= i < |n| :: !IsLowerOrDigit(n[i])
    ensures SplitCamel(prev, n) == n
    decreases |n|
  {
    if n != "" {
      NoHumpsInCapitals(n[0], n[1..]);
    }
  }

  /** All in lower case or all in capitals. */
  predicate OneCase(n: Text) {
    (forall i | 0 <= i < |n| :: !('A' <= n[i] <= 'Z')) || (forall i | 0 <= i < |n| :: !('a' <= n[i] <= 'z'))
  }

  lemma FoldIsWord(n: Text, w: Text)
    requires SameWord(n, w) && LowerName(w)
    ensures Fold(n) == Fold(w)
  {
    FoldIsPointwise(n);
    FoldIsPointwise(w);
    assert forall k | 0 <= k < |w| :: Fold(n)[k] == Fold(w)[k];
  }

  /** A name free text may use, in one letter case, is a secret field name if and only if the
      words it folds to are. */
  lemma NameIsSecretIff(n: Text, w: Text, ws: seq<Text>)
    requires SameWord(n, w) && LowerName(w) && OneCase(n) && AreWords(ws) && Fold(w) == Joined('_', ws)
    ensures IsSecretKey(n) <==> SecretWords(ws)
  {
    FoldIsWord(n, w);
    assert n[0] == w[0] || n[0] as int + 32 == w[0] as int;
    assert n[|n| - 1] == w[|w| - 1] || n[|n| - 1] as int + 32 == w[|w| - 1] as int;
    Normalised(n, ws);
    hide NormaliseKey;
    hide Fold;
    SecretIffWords(ws);
    SpellingsAgree(ws);
  }

  lemma FoldJoinedBy(x: Text, s: Text, y: Text)
    requires LowerName(x) && Joins(s)
    ensures Fold(x + s + y) == Fold(x) + (if s == "" then "" else "_") + Fold(y)
  {
    FoldJoins(x + s, y);
    FoldJoins(x, s);
    if s != "" {
      FoldSeparator(s[0]);
    }
  }

  /** The words of a name: those that nothing separates are one. */
  function Apart(x: Text, s: Text, ws: seq<Text>): seq<Text>
    requires ws != []
  {
    if s == "" then [x + ws[0]] + ws[1..] else [x] + ws
  }

  lemma FoldApart(x: Text, s: Text, y: Text, ws: seq<Text>)
    requires IsWordOf(x) && Joins(s) && AreWords(ws) && Fold(y) == Joined('_', ws)
    ensures AreWords(Apart(x, s, ws)) && Fold(x + s + y) == Joined('_', Apart(x, s, ws))
  {
    FoldJoinedBy(x, s, y);
    FoldKeeps(x);
    hide Fold;
    var rest := Joined('_', ws);
    if s == "" {
      assert x + "" + rest == x + rest;
      if |ws| > 1 {
        assert Apart(x, s, ws)[1..] == ws[1..];
        assert x + (ws[0] + ['_'] + Joined('_', ws[1..])) == x + ws[0] + ['_'] + Joined('_', ws[1..]);
      }
    } else {
      assert Apart(x, s, ws)[1..] == ws;
    }
  }

  lemma OneFold(x: Text)
    requires IsWordOf(x)
    ensures AreWords([x]) && Fold(x) == Joined('_', [x])
  {
    FoldKeeps(x);
  }

  lemma TwoWordName(n: Text, x: Text, s: Text, y: Text)
    requires IsWordOf(x) && IsWordOf(y) && Joins(s) && SameWord(n, x + s + y) && OneCase(n)
    ensures IsSecretKey(n) <==> SecretWords(Apart(x, s, [y]))
  {
    hide IsSecretKey;
    hide SecretWords;
    hide Fold;
    OneFold(y);
    FoldApart(x, s, y, [y]);
    JoinedIsLower(x, y, x + s + y);
    hide OneCase;
    hide SameWord;
    NameIsSecretIff(n, x + s + y, Apart(x, s, [y]));
  }

  lemma ThreeWordName(n: Text, x: Text, r: Text, y: Text, s: Text, z: Text)
    requires IsWordOf(x) && IsWordOf(y) && IsWordOf(z) && Joins(r) && Joins(s)
    requires SameWord(n, x + r + (y + s + z)) && OneCase(n)
    ensures IsSecretKey(n) <==> SecretWords(Apart(x, r, Apart(y, s, [z])))
  {
    hide IsSecretKey;
    hide SecretWords;
    hide Fold;
    OneFold(z);
    FoldApart(y, s, z, [z]);
    JoinedIsLower(y, z, y + s + z);
    hide OneCase;
    hide SameWord;
    var tail, ws := y + s + z, Apart(y, s, [z]);
    hide Apart;
    FoldApart(x, r, tail, ws);
    JoinedIsLower(x, tail, x + r + tail);
    NameIsSecretIff(n, x + r + tail, Apart(x, r, ws));
  }

  lemma TwoApart(x: Text, s: Text)
    requires x in {"secret", "access", "private", "api"} && Joins(s)
    ensures SecretWords(Apart(x, s, ["key"])) <==> s != "" || x == "api"
  {
    assert "secret" + "key" == "secretkey" && "access" + "key" == "accesskey";
    assert "private" + "key" == "privatekey" && "api" + "key" == "apikey";
    assert Apart(x, s, ["key"]) == if s == "" then [x + "key"] else [x, "key"];
  }

  lemma ThreeApart(x: Text, r: Text, y: Text, s: Text, z: Text)
    requires Joins(r) && Joins(s)
    ensures Apart(x, r, Apart(y, s, [z])) ==
            if r == "" && s == "" then [x + (y + z)] else if r == "" then [x + y, z]
            else if s == "" then [x, y + z] else [x, y, z]
  {
  }

  lemma SecretAccessKeyApart(r: Text, s: Text)
    requires Joins(r) && Joins(s)
    ensures SecretWords(Apart("secret", r, Apart("access", s, ["key"]))) <==> r != "" && s != ""
  {
    assert "secret" + "access" == "secretaccess" && "access" + "key" == "accesskey";
    assert "secret" + ("access" + "key") == "secretaccesskey";
    hide Apart;
    ThreeApart("secret", r, "access", s, "key");
  }

  lemma AccessKeyIdApart(r: Text, s: Text)
    requires Joins(r) && Joins(s)
    ensures SecretWords(Apart("access", r, Apart("key", s, ["id"]))) <==> r != "" && s != ""
  {
    assert "access" + "key" == "accesskey" && "key" + "id" == "keyid";
    assert "access" + ("key" + "id") == "accesskeyid";
    hide Apart;
    ThreeApart("access", r, "key", s, "id");
  }

  lemma OneWordName(n: Text, w: Text)
    requires w in {"password", "passwd", "pwd", "secret", "token", "authorization", "credential"}
    requires SameWord(n, w) && OneCase(n)
    ensures IsSecretKey(n)
  {
    hide IsSecretKey;
    assert IsWordOf(w) && SecretWords([w]);
    hide SecretWords;
    OneFold(w);
    NameIsSecretIff(n, w, [w]);
  }

  /** Of the names of two words that free text may use, a separator makes a secret field name,
      and nothing between the words does for `apikey` alone. */
  lemma TwoWordsShared(n: Text, x: Text, s: Text)
    requires x in {"secret", "access", "private", "api"} && Joins(s) && SameWord(n, x + s + "key") && OneCase(n)
    ensures IsSecretKey(n) <==> s != "" || x == "api"
  {
    hide IsSecretKey;
    hide Apart;
    hide SecretWords;
    assert IsWordOf(x);
    TwoWordName(n, x, s, "key");
    TwoApart(x, s);
  }

  /** Of the names of three words, separators in both places make a secret field name. */
  lemma ThreeWordsShared(n: Text, r: Text, s: Text)
    requires Joins(r) && Joins(s) && OneCase(n)
    ensures SameWord(n, "secret" + r + ("access" + s + "key")) ==> (IsSecretKey(n) <==> r != "" && s != "")
    ensures SameWord(n, "access" + r + ("key" + s + "id")) ==> (IsSecretKey(n) <==> r != "" && s != "")
  {
    hide IsSecretKey;
    hide Apart;
    hide SecretWords;
    hide SameWord;
    if SameWord(n, "secret" + r + ("access" + s + "key")) {
      ThreeWordName(n, "secret", r, "access", s, "key");
      SecretAccessKeyApart(r, s);
    }
    if SameWord(n, "access" + r + ("key" + s + "id")) {
      ThreeWordName(n, "access", r, "key", s, "id");
      AccessKeyIdApart(r, s);
    }
  }

  // ---------------------------------------------------------------- the walk

  /** The walk, one container at a time: a dict keeps its names in their order and loses a
      string exactly under a name that is a text and secret; other values are walked. */
  lemma WalkIs(j: Json)
    ensures j.Str? ==> RedactStructure(j) == Str(Redacted(j.text))
    ensures j.Atom? ==> RedactStructure(j) == j
    ensures j.List? ==>
              && RedactStructure(j).List? && |RedactStructure(j).elements| == |j.elements|
              && forall i | 0 <= i < |j.elements| :: RedactStructure(j).elements[i] == RedactStructure(j.elements[i])
    ensures j.Dict? ==>
              && RedactStructure(j).Dict? && |RedactStructure(j).items| == |j.items|
              && forall i | 0 <= i < |j.items| ::
                   var (name, item) := j.items[i];
                   RedactStructure(j).items[i] ==
                   (name, if name.Name? && item.Str? && SpellsSecret(name.text) then Str("[REDACTED]")
                          else RedactStructure(item))
  {
    hide Redacted;
    hide IsSecretKey;
    hide SpellsSecret;
    if j.Dict? {
      forall i | 0 <= i < |j.items| && j.items[i].0.Name?
        ensures IsSecretKey(j.items[i].0.text) <==> SpellsSecret(j.items[i].0.text)
      {
        SecretIffNormal(j.items[i].0.text);
      }
    }
  }
}
