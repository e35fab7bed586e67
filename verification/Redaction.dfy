/** internal/api/customer_routes.go: redacting an event's payload before it is shown. */
module Redaction {
  import opened Text

  /** A decoded JSON value. Numbers are kept as their text. */
  datatype Json =
    | Object(fields: map<string, Json>)
    | Array(items: seq<Json>)
    | String(text: string)
    | Number(text: string)
    | Boolean(value: bool)
    | Null

  const REDACTED := String("[REDACTED]")

  const MARKERS: seq<string> :=
    ["email", "phone", "telephone", "mobile", "address", "password", "passcode", "secret", "token",
     "authorization", "cookie", "ssn", "socialsecurity"]

  const EXACT: seq<string> := ["ip", "ipaddress", "clientip", "remoteip"]

  function Stripped(s: string): string {
    if s == "" then ""
    else Stripped(s[..|s| - 1]) + if s[|s| - 1] in "-_ " then "" else [s[|s| - 1]]
  }

  function Normalized(key: string): string {
    Lower(Stripped(key))
  }

  predicate StartsAt(s: string, i: nat, marker: string) {
    i <= |s| && marker <= s[i..]
  }

  predicate Contains(s: string, marker: string) {
    exists i :: 0 <= i <= |s| && StartsAt(s, i, marker)
  }

  predicate Sensitive(key: string) {
    (exists i :: 0 <= i < |MARKERS| && Contains(Normalized(key), MARKERS[i])) || Normalized(key) in EXACT
  }

  method SensitiveEventKey(key: string) returns (sensitive: bool)
    ensures sensitive <==> Sensitive(key)
  {
    var normalized := Normalized(key);
    for i := 0 to |MARKERS|
      invariant forall j :: 0 <= j < i ==> !Contains(normalized, MARKERS[j])
    {
      if Contains(normalized, MARKERS[i]) {
        return true;
      }
    }
    return normalized in EXACT;
  }

  /** redactEventObject and redactEventValue. */
  function Redact(v: Json): Json {
    match v
    case Object(fields) => Object(map k | k in fields :: if Sensitive(k) then REDACTED else Redact(fields[k]))
    case Array(items) => Array(seq(|items|, i requires 0 <= i < |items| => Redact(items[i])))
    case _ => v
  }

  /** Redacting twice is redacting once. */
  lemma {:induction false} RedactIsIdempotent(v: Json)
    ensures Redact(Redact(v)) == Redact(v)
  {
    hide Sensitive;
    match v
    case Object(fields) =>
      forall k | k in fields && !Sensitive(k)
        ensures Redact(Redact(fields[k])) == Redact(fields[k])
      {
        RedactIsIdempotent(fields[k]);
      }
    case Array(items) =>
      forall i | 0 <= i < |items|
        ensures Redact(Redact(items[i])) == Redact(items[i])
      {
        RedactIsIdempotent(items[i]);
      }
    case _ =>
  }

  // ------------------------------------------------------- what a payload shows

  /** The payloads differ, at any depth, only in what sits under sensitive keys. */
  predicate Alike(a: Json, b: Json) {
    if a.Object? && b.Object? then
      && a.fields.Keys == b.fields.Keys
      && forall k :: k in a.fields && !Sensitive(k) ==> Alike(a.fields[k], b.fields[k])
    else if a.Array? && b.Array? then
      |a.items| == |b.items| && forall i :: 0 <= i < |a.items| ==> Alike(a.items[i], b.items[i])
    else a == b
  }

  /** Exactly the payloads that differ only under sensitive keys redact to the same
      tree: nothing sensitive shows, and nothing else is lost. */
  lemma {:induction false} RedactHidesExactlyTheSensitive(a: Json, b: Json)
    ensures Redact(a) == Redact(b) <==> Alike(a, b)
  {
    hide Sensitive;
    if a.Object? && b.Object? {
      ObjectsRedactAlike(a.fields, b.fields);
      forall k | k in a.fields && k in b.fields && !Sensitive(k)
        ensures Redact(a.fields[k]) == Redact(b.fields[k]) <==> Alike(a.fields[k], b.fields[k])
      {
        RedactHidesExactlyTheSensitive(a.fields[k], b.fields[k]);
      }
    } else if a.Array? && b.Array? {
      ArraysRedactAlike(a.items, b.items);
      forall i | 0 <= i < |a.items| && i < |b.items|
        ensures Redact(a.items[i]) == Redact(b.items[i]) <==> Alike(a.items[i], b.items[i])
      {
        RedactHidesExactlyTheSensitive(a.items[i], b.items[i]);
      }
    }
  }

  lemma ObjectsRedactAlike(a: map<string, Json>, b: map<string, Json>)
    ensures Redact(Object(a)) == Redact(Object(b)) <==>
              a.Keys == b.Keys && forall k :: k in a && !Sensitive(k) ==> Redact(a[k]) == Redact(b[k])
  {
    hide Sensitive;
    var a', b' := Redact(Object(a)).fields, Redact(Object(b)).fields;
    assert a'.Keys == a.Keys && b'.Keys == b.Keys;
    assert forall k :: k in a && !Sensitive(k) ==> a'[k] == Redact(a[k]);
    assert forall k :: k in b && !Sensitive(k) ==> b'[k] == Redact(b[k]);
  }

  lemma ArraysRedactAlike(a: seq<Json>, b: seq<Json>)
    ensures Redact(Array(a)) == Redact(Array(b)) <==>
              |a| == |b| && forall i :: 0 <= i < |a| ==> Redact(a[i]) == Redact(b[i])
  {
    var a', b' := Redact(Array(a)).items, Redact(Array(b)).items;
    assert |a'| == |a| && |b'| == |b|;
    assert forall i :: 0 <= i < |a| ==> a'[i] == Redact(a[i]);
    assert forall i :: 0 <= i < |b| ==> b'[i] == Redact(b[i]);
  }

  /** Where a value sits inside a payload. */
  datatype Hop = Key(key: string) | Index(i: nat)

  type Path = seq<Hop>

  function Step(v: Json, hop: Hop): (r: seq<Json>)
    ensures |r| <= 1
  {
    match hop
    case Key(k) => if v.Object? && k in v.fields then [v.fields[k]] else []
    case Index(i) => if v.Array? && i < |v.items| then [v.items[i]] else []
  }

  /** The value at a path, if there is one. */
  function At(v: Json, path: Path): (r: seq<Json>)
    ensures |r| <= 1
  {
    if path == [] then [v]
    else if Step(v, path[0]) == [] then []
    else At(Step(v, path[0])[0], path[1..])
  }

  predicate Guarded(path: Path) {
    exists i :: 0 <= i < |path| && path[i].Key? && Sensitive(path[i].key)
  }

  function RedactFound(found: seq<Json>): seq<Json>
    requires |found| <= 1
  {
    if found == [] then [] else [Redact(found[0])]
  }

  /** Off the sensitive keys redaction keeps the tree: at every such path the redacted
      payload holds the redacted value, an object keeps all its keys, an array its
      length, and any other value is unchanged. */
  lemma {:induction false} UnguardedPathsAreKept(v: Json, path: Path)
    requires !Guarded(path)
    ensures At(Redact(v), path) == RedactFound(At(v, path))
    ensures At(v, path) != [] ==>
              var x, y := At(v, path)[0], At(Redact(v), path)[0];
              && (x.Object? ==> y.Object? && y.fields.Keys == x.fields.Keys)
              && (x.Array? ==> y.Array? && |y.items| == |x.items|)
              && (!x.Object? && !x.Array? ==> y == x)
    decreases |path|
  {
    hide Sensitive;
    if path != [] {
      assert !(path[0].Key? && Sensitive(path[0].key));
      assert Step(Redact(v), path[0]) == RedactFound(Step(v, path[0]));
      forall i | 0 <= i < |path[1..]|
        ensures !(path[1..][i].Key? && Sensitive(path[1..][i].key))
      {
        assert path[1..][i] == path[i + 1];
      }
      if Step(v, path[0]) != [] {
        UnguardedPathsAreKept(Step(v, path[0])[0], path[1..]);
      }
    }
  }

  lemma AtConcat(v: Json, a: Path, b: Path)
    ensures At(v, a + b) == if At(v, a) == [] then [] else At(At(v, a)[0], b)
    decreases |a|
  {
    if a == [] {
      assert a + b == b;
    } else {
      assert (a + b)[1..] == a[1..] + b;
      if Step(v, a[0]) != [] {
        AtConcat(Step(v, a[0])[0], a[1..], b);
      }
    }
  }

  /** Under a sensitive key, as far as the path is not already beneath another, the
      payload shows the marker where it held anything, and nothing below it. */
  lemma GuardedPathsAreHidden(v: Json, path: Path, key: string, below: Path)
    requires !Guarded(path) && Sensitive(key)
    ensures var there := path + [Key(key)];
            && At(Redact(v), there) == (if At(v, there) == [] then [] else [String("[REDACTED]")])
            && (below != [] ==> At(Redact(v), there + below) == [])
  {
    hide Sensitive;
    UnguardedPathsAreKept(v, path);
    AtConcat(v, path, [Key(key)]);
    AtConcat(Redact(v), path, [Key(key)]);
    AtConcat(Redact(v), path + [Key(key)], below);
    if At(v, path) != [] {
      var x := At(v, path)[0];
      assert At(x, [Key(key)]) == Step(x, Key(key)) && At(Redact(x), [Key(key)]) == Step(Redact(x), Key(key));
    }
  }

  // ------------------------------------------------------------- key spelling

  lemma {:induction false} StrippedConcat(a: string, b: string)
    ensures Stripped(a + b) == Stripped(a) + Stripped(b)
  {
    if b == "" {
      assert a + b == a;
    } else {
      assert (a + b)[..|a + b| - 1] == a + b[..|b| - 1];
      StrippedConcat(a, b[..|b| - 1]);
    }
  }

  lemma LowerConcat(a: string, b: string)
    ensures Lower(a + b) == Lower(a) + Lower(b)
  {
  }

  lemma {:induction false} LoweredFirst(s: string)
    ensures Normalized(Lower(s)) == Normalized(s)
  {
    if s != "" {
      var n := |s| - 1;
      LoweredFirst(s[..n]);
      assert Lower(s)[..n] == Lower(s[..n]) && Lower(s)[n] == LowerChar(s[n]);
      var last := if s[n] in "-_ " then "" else [s[n]];
      var lowered := if LowerChar(s[n]) in "-_ " then "" else [LowerChar(s[n])];
      assert lowered == Lower(last) == Lower(lowered);
      LowerConcat(Stripped(s[..n]), last);
      LowerConcat(Stripped(Lower(s[..n])), lowered);
    }
  }

  /** Neither case nor dashes, underscores and spaces anywhere in a key matter. */
  lemma SpellingDoesNotMatter(a: string, separator: char, b: string)
    requires separator in "-_ "
    ensures Sensitive(a + [separator] + b) == Sensitive(a + b)
    ensures Sensitive(Lower(a)) == Sensitive(a)
  {
    StrippedConcat(a + [separator], b);
    StrippedConcat(a, [separator]);
    StrippedConcat(a, b);
    assert [separator][..0] == "" && Stripped([separator]) == "";
    assert Stripped(a) + "" + Stripped(b) == Stripped(a) + Stripped(b);
    assert Normalized(a + [separator] + b) == Normalized(a + b);
    LoweredFirst(a);
  }

  /** A key whose normalised form holds a marker stays sensitive however it is extended. */
  lemma MarkersSurviveExtension(before: string, key: string, after: string, i: nat)
    requires i < |MARKERS| && Contains(Normalized(key), MARKERS[i])
    ensures Sensitive(before + key + after)
  {
    var whole, inner, marker := Normalized(before + key + after), Normalized(key), MARKERS[i];
    StrippedConcat(before + key, after);
    StrippedConcat(before, key);
    LowerConcat(Stripped(before + key), Stripped(after));
    LowerConcat(Stripped(before), Stripped(key));
    assert whole == Normalized(before) + inner + Normalized(after);
    ContainsInside(Normalized(before), inner, Normalized(after), marker);
    hide Contains, Normalized;
    assert Contains(whole, MARKERS[i]);
  }

  lemma ContainsInside(before: string, inner: string, after: string, marker: string)
    requires Contains(inner, marker)
    ensures Contains(before + inner + after, marker)
  {
    var at: nat :| at <= |inner| && StartsAt(inner, at, marker);
    var whole, there := before + inner + after, |before| + at;
    assert whole[there..] == inner[at..] + after;
    assert StartsAt(whole, there, marker);
  }

  // ------------------------------------------------------ which keys are sensitive

  /** These laws fix the stripping: dashes, underscores and spaces go, all else stays. */
  lemma StrippingDrops(a: string, b: string, c: char)
    ensures Stripped(a + b) == Stripped(a) + Stripped(b)
    ensures Stripped([c]) == if c == '-' || c == '_' || c == ' ' then "" else [c]
    ensures Stripped("") == ""
  {
    StrippedConcat(a, b);
    assert [c][..0] == "";
  }

  /** And these the lowering, as far as markers can tell. */
  lemma LoweringFolds(a: string, b: string, c: char)
    ensures Lower(a + b) == Lower(a) + Lower(b)
    ensures 'A' <= c <= 'Z' ==> Lower([c]) == [(c as int + 32) as char]
    ensures 'a' <= c <= 'z' ==> Lower([c]) == [c]
  {
    LowerConcat(a, b);
  }

  predicate SmallLetters(s: string) {
    forall i :: 0 <= i < |s| ==> 'a' <= s[i] <= 'z'
  }

  lemma {:induction false} SmallLettersStay(s: string)
    requires SmallLetters(s)
    ensures Normalized(s) == s
  {
    if s != "" {
      var n := |s| - 1;
      SmallLettersStay(s[..n]);
      LowerConcat(Stripped(s[..n]), [s[n]]);
      assert Lower([s[n]]) == [s[n]];
      assert s == s[..n] + [s[n]];
    }
  }

  /** The thirteen words no shown key may contain. */
  predicate SensitiveWord(word: string) {
    || word == "email" || word == "phone" || word == "telephone" || word == "mobile" || word == "address"
    || word == "password" || word == "passcode" || word == "secret" || word == "token" || word == "authorization"
    || word == "cookie" || word == "ssn" || word == "socialsecurity"
  }

  /** The four names of network addresses. */
  predicate AddressName(name: string) {
    name == "ip" || name == "ipaddress" || name == "clientip" || name == "remoteip"
  }

  lemma WordsAreMarkers(word: string)
    ensures SensitiveWord(word) <==> exists i :: 0 <= i < |MARKERS| && MARKERS[i] == word
  {
    var m := MARKERS;
    assert m[0] == "email" && m[1] == "phone" && m[2] == "telephone" && m[3] == "mobile" && m[4] == "address";
    assert m[5] == "password" && m[6] == "passcode" && m[7] == "secret" && m[8] == "token";
    assert m[9] == "authorization" && m[10] == "cookie" && m[11] == "ssn" && m[12] == "socialsecurity" && |m| == 13;
  }

  lemma WordsAreSmall(word: string)
    requires SensitiveWord(word)
    ensures SmallLetters(word)
  {
  }

  lemma ContainsItself(s: string)
    ensures Contains(s, s)
  {
    assert s[0..] == s && StartsAt(s, 0, s);
  }

  /** A key is sensitive exactly if, stripped and lowered, it holds one of the thirteen
      words or is one of the four names. */
  lemma SensitiveExactly(key: string)
    ensures Sensitive(key) <==>
              || (exists word, at :: SensitiveWord(word) && Holds(Normalized(key), at, word))
              || AddressName(Normalized(key))
  {
    var s := Normalized(key);
    if i :| 0 <= i < |MARKERS| && Contains(s, MARKERS[i]) {
      var at: nat :| at <= |s| && StartsAt(s, at, MARKERS[i]);
      WordsAreMarkers(MARKERS[i]);
      assert Holds(s, at, MARKERS[i]);
    }
    if word, at :| SensitiveWord(word) && Holds(s, at, word) {
      WordsAreMarkers(word);
      assert StartsAt(s, at, word);
    }
  }

  /** `word` stands in s at that place. */
  predicate Holds(s: string, at: int, word: string) {
    0 <= at <= |s| - |word| && s[at..at + |word|] == word
  }

  /** Each of the thirteen words makes any key around it sensitive. */
  lemma WordsAreHidden(before: string, word: string, after: string)
    requires SensitiveWord(word)
    ensures Sensitive(before + word + after)
  {
    WordsAreSmall(word);
    SmallLettersStay(word);
    WordsAreMarkers(word);
    var i :| 0 <= i < |MARKERS| && MARKERS[i] == word;
    ContainsItself(word);
    MarkersSurviveExtension(before, word, after, i);
  }

  lemma HiddenExamples()
    ensures Sensitive("password") && Sensitive("user-e_Mail") && Sensitive("Client IP")
  {
    assert "" + "password" + "" == "password";
    WordsAreHidden("", "password", "");
    MailExample();
    AddressExample();
  }

  lemma MailExample()
    ensures Sensitive("user-e_Mail")
  {
    hide Sensitive;
    assert "user" + ['-'] + "e_Mail" == "user-e_Mail" && "user" + "e_Mail" == "usere_Mail";
    SpellingDoesNotMatter("user", '-', "e_Mail");
    assert "usere" + ['_'] + "Mail" == "usere_Mail" && "usere" + "Mail" == "usereMail";
    SpellingDoesNotMatter("usere", '_', "Mail");
    assert Lower("usereMail") == "useremail";
    SpellingDoesNotMatter("usereMail", '-', "");
    assert "user" + "email" + "" == "useremail";
    WordsAreHidden("user", "email", "");
  }

  lemma AddressExample()
    ensures Sensitive("Client IP")
  {
    assert "Client" + [' '] + "IP" == "Client IP" && "Client" + "IP" == "ClientIP";
    SpellingDoesNotMatter("Client", ' ', "IP");
    assert Lower("ClientIP") == "clientip";
    SpellingDoesNotMatter("ClientIP", '-', "");
    assert SmallLetters("clientip");
    SmallLettersStay("clientip");
    SensitiveExactly("clientip");
    hide Sensitive;
  }

  lemma HeldLetter(s: string, at: int, word: string, i: nat)
    requires Holds(s, at, word) && i < |word|
    ensures s[at + i] == word[i]
  {
    assert s[at..at + |word|][i] == s[at + i];
  }

  /** A word is not held where one of its letters does not occur. */
  lemma MissingLetter(s: string, word: string, i: nat)
    requires i < |word| && word[i] !in s
    ensures forall at :: !Holds(s, at, word)
  {
    forall at
      ensures !Holds(s, at, word)
    {
      if Holds(s, at, word) {
        HeldLetter(s, at, word, i);
      }
    }
  }

  lemma WordsNeedLetters(s: string, word: string)
    requires SensitiveWord(word)
    requires forall c :: c in s ==> c !in "aetom"
    ensures word == "ssn" || forall at :: !Holds(s, at, word)
  {
    if word == "email" { MissingLetter(s, word, 0); }
    else if word == "phone" { MissingLetter(s, word, 4); }
    else if word == "telephone" { MissingLetter(s, word, 0); }
    else if word == "mobile" { MissingLetter(s, word, 0); }
    else if word == "address" { MissingLetter(s, word, 0); }
    else if word == "password" { MissingLetter(s, word, 1); }
    else if word == "passcode" { MissingLetter(s, word, 1); }
    else if word == "secret" { MissingLetter(s, word, 1); }
    else if word == "token" { MissingLetter(s, word, 0); }
    else if word == "authorization" { MissingLetter(s, word, 0); }
    else if word == "cookie" { MissingLetter(s, word, 1); }
    else if word == "socialsecurity" { MissingLetter(s, word, 1); }
  }

  lemma ShippingIsKept()
    ensures !Sensitive("shipping")
  {
    var s := "shipping";
    assert SmallLetters(s);
    SmallLettersStay(s);
    SensitiveExactly(s);
    hide Sensitive;
    forall word, at | SensitiveWord(word)
      ensures !Holds(s, at, word)
    {
      WordsNeedLetters(s, word);
      if word == "ssn" && Holds(s, at, word) {
        HeldLetter(s, at, word, 0);
        HeldLetter(s, at, word, 1);
      }
    }
  }

  /** No word has fewer than five letters but "ssn". */
  lemma ShortKeysAreKept(key: string)
    requires SmallLetters(key) && |key| <= 4 && 's' !in key && !AddressName(key)
    ensures !Sensitive(key)
  {
    SmallLettersStay(key);
    SensitiveExactly(key);
    hide Sensitive;
    forall word, at | SensitiveWord(word)
      ensures !Holds(key, at, word)
    {
      if word == "ssn" {
        MissingLetter(key, word, 0);
      }
    }
  }

  lemma KeptExamples()
    ensures !Sensitive("name") && !Sensitive("shipping") && !Sensitive("zip")
  {
    ShortKeysAreKept("name");
    ShortKeysAreKept("zip");
    ShippingIsKept();
  }

  /** Payloads in the clear: a password, an e-mail address and an IP address are hidden
      whatever they hold; a name, a shipping record and a zip code are redacted within. */
  lemma ClearExamples(v: Json)
    ensures Redact(Object(map["password" := v])) == Object(map["password" := String("[REDACTED]")])
    ensures Redact(Object(map["user-e_Mail" := v])) == Object(map["user-e_Mail" := String("[REDACTED]")])
    ensures Redact(Object(map["Client IP" := v])) == Object(map["Client IP" := String("[REDACTED]")])
    ensures Redact(Object(map["name" := v])) == Object(map["name" := Redact(v)])
    ensures Redact(Object(map["shipping" := v])) == Object(map["shipping" := Redact(v)])
    ensures Redact(Object(map["zip" := v])) == Object(map["zip" := Redact(v)])
  {
    HiddenExamples();
    KeptExamples();
    hide Sensitive, Redact;
    RedactField("password", v);
    RedactField("user-e_Mail", v);
    RedactField("Client IP", v);
    RedactField("name", v);
    RedactField("shipping", v);
    RedactField("zip", v);
  }

  lemma RedactField(key: string, v: Json)
    ensures Redact(Object(map[key := v])) ==
              Object(map[key := if Sensitive(key) then String("[REDACTED]") else Redact(v)])
  {
    hide Sensitive;
  }
}
