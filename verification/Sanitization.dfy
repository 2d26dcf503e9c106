/** JSON values, and the recursive redaction applied before anything is stored. */
module Sanitization {
  import opened Wrappers

  datatype Json =
    | Null
    | Bool(value: bool)
    | Number(n: int)
    | Text(text: string)
    | List(items: seq<Json>)
    | Object(fields: seq<Field>)

  /** One entry of an object; objects keep their entries in insertion order. */
  datatype Field = Field(key: string, value: Json)

  function Get(fields: seq<Field>, key: string): Option<Json> {
    if fields == [] then None
    else if fields[0].key == key then Some(fields[0].value)
    else Get(fields[1..], key)
  }

  function Put(fields: seq<Field>, key: string, value: Json): seq<Field> {
    if fields == [] then [Field(key, value)]
    else if fields[0].key == key then [Field(key, value)] + fields[1..]
    else [fields[0]] + Put(fields[1..], key, value)
  }

  const REDACTED := "***"

  const SENSITIVE_KEYWORDS :=
    ["api_key", "apikey", "authorization", "cookie", "password", "secret", "token"]

  function Lower(key: string): (r: string)
    ensures |r| == |key|
    ensures forall i :: 0 <= i < |key| ==> r[i] == if 'A' <= key[i] <= 'Z' then key[i] - 'A' + 'a' else key[i]
  {
    seq(|key|, i requires 0 <= i < |key| => if 'A' <= key[i] <= 'Z' then key[i] - 'A' + 'a' else key[i])
  }

  predicate Contains(text: string, part: string) {
    exists i :: 0 <= i <= |text| - |part| && part <= text[i..]
  }

  predicate Sensitive(key: string) {
    exists k :: 0 <= k < |SENSITIVE_KEYWORDS| && Contains(Lower(key), SENSITIVE_KEYWORDS[k])
  }

  /** `redact` rewrites secrets inside one text. */
  function Sanitize(redact: string -> string, value: Json): Json {
    match value
    case Object(fields) =>
      Object(seq(|fields|, i requires 0 <= i < |fields| =>
        Field(fields[i].key,
              if Sensitive(fields[i].key) then Text(REDACTED) else Sanitize(redact, fields[i].value))))
    case List(items) =>
      List(seq(|items|, i requires 0 <= i < |items| => Sanitize(redact, items[i])))
    case Text(text) => Text(redact(text))
    case _ => value
  }

  ghost predicate Idempotent(redact: string -> string) {
    forall text :: redact(redact(text)) == redact(text)
  }

  lemma {:induction false} SanitizeTwice(redact: string -> string, value: Json)
    requires Idempotent(redact)
    ensures Sanitize(redact, Sanitize(redact, value)) == Sanitize(redact, value)
    decreases value
  {
    match value
    case Object(fields) =>
      forall i | 0 <= i < |fields| {
        SanitizeTwice(redact, fields[i].value);
      }
    case List(items) =>
      forall i | 0 <= i < |items| {
        SanitizeTwice(redact, items[i]);
      }
    case Text(text) =>
      assert redact(redact(text)) == redact(text);
    case _ =>
  }

  /** Redaction commutes with looking up a key that is not sensitive. */
  lemma {:induction false} GetSanitized(redact: string -> string, fields: seq<Field>, key: string)
    requires !Sensitive(key)
    ensures Get(Sanitize(redact, Object(fields)).fields, key) ==
      match Get(fields, key) case None => None case Some(value) => Some(Sanitize(redact, value))
    decreases |fields|
  {
    if fields != [] {
      GetSanitized(redact, fields[1..], key);
      assert Sanitize(redact, Object(fields)).fields[1..] == Sanitize(redact, Object(fields[1..])).fields;
    }
  }

  lemma {:induction false} GetPut(fields: seq<Field>, key: string, value: Json, other: string)
    ensures Get(Put(fields, key, value), other) == if other == key then Some(value) else Get(fields, other)
    decreases |fields|
  {
    if fields != [] {
      GetPut(fields[1..], key, value, other);
    }
  }

  /** The first three letters of the sensitive keywords. */
  predicate Opens(a: char, b: char, c: char) {
    (a, b, c) in
      {('a', 'p', 'i'), ('a', 'u', 't'), ('c', 'o', 'o'), ('p', 'a', 's'), ('s', 'e', 'c'), ('t', 'o', 'k')}
  }

  /** A key that nowhere starts like a keyword is not sensitive. */
  lemma NotSensitive(key: string)
    requires forall i :: 0 <= i < |key| - 2 ==> !Opens(Lower(key)[i], Lower(key)[i + 1], Lower(key)[i + 2])
    ensures !Sensitive(key)
  {
    var lower := Lower(key);
    forall k, i | 0 <= k < |SENSITIVE_KEYWORDS| && 0 <= i <= |lower| - |SENSITIVE_KEYWORDS[k]|
      ensures !(SENSITIVE_KEYWORDS[k] <= lower[i..])
    {
      var keyword := SENSITIVE_KEYWORDS[k];
      assert |keyword| >= 5 && Opens(keyword[0], keyword[1], keyword[2]);
      assert lower[i..][0] == lower[i] && lower[i..][1] == lower[i + 1] && lower[i..][2] == lower[i + 2];
      assert !Opens(lower[i], lower[i + 1], lower[i + 2]);
    }
  }

  // ---- What redaction guarantees ---------------------------------------------------------------

  /** The letter itself or its ASCII capital. */
  predicate Spells(c: char, letter: char) {
    c == letter || ('a' <= letter <= 'z' && c == letter - 'a' + 'A')
  }

  /** `part`, in small letters, stands in the text at `p`, whatever the case there. */
  predicate StandsAt(text: string, part: string, p: nat) {
    p + |part| <= |text| && forall i :: 0 <= i < |part| ==> Spells(text[p + i], part[i])
  }

  predicate NoCapitals(part: string) {
    forall i :: 0 <= i < |part| ==> !('A' <= part[i] <= 'Z')
  }

  lemma StandsAtPlace(text: string, part: string, p: nat)
    requires NoCapitals(part) && p + |part| <= |text|
    ensures part <= Lower(text)[p..] <==> StandsAt(text, part, p)
  {
    var rest := Lower(text)[p..];
    assert forall i :: 0 <= i < |part| ==> rest[i] == Lower(text)[p + i];
    forall i | 0 <= i < |part| ensures Lower(text)[p + i] == part[i] <==> Spells(text[p + i], part[i]) {
    }
    if part <= rest {
      forall i | 0 <= i < |part| ensures Spells(text[p + i], part[i]) {
        assert part[i] == rest[i];
      }
    }
    if StandsAt(text, part, p) {
      assert forall i :: 0 <= i < |part| ==> rest[i] == part[i];
      assert rest[..|part|] == part;
    }
  }

  /** A text contains a word up to ASCII case exactly when the word stands in it somewhere. */
  lemma ContainsExactlyWhen(text: string, part: string)
    requires NoCapitals(part)
    ensures Contains(Lower(text), part) <==> exists p: nat :: StandsAt(text, part, p)
  {
    if Contains(Lower(text), part) {
      var i :| 0 <= i <= |Lower(text)| - |part| && part <= Lower(text)[i..];
      StandsAtPlace(text, part, i);
    }
    if p: nat :| StandsAt(text, part, p) {
      StandsAtPlace(text, part, p);
    }
  }

  /** One of the words stands in the text, in any case. */
  ghost predicate OneStandsIn(text: string, words: seq<string>) {
    exists k, p: nat :: 0 <= k < |words| && StandsAt(text, words[k], p)
  }

  lemma ContainsOneExactlyWhen(text: string, words: seq<string>)
    requires forall k :: 0 <= k < |words| ==> NoCapitals(words[k])
    ensures (exists k :: 0 <= k < |words| && Contains(Lower(text), words[k])) <==> OneStandsIn(text, words)
  {
    if k :| 0 <= k < |words| && Contains(Lower(text), words[k]) {
      ContainsExactlyWhen(text, words[k]);
      var p: nat :| StandsAt(text, words[k], p);
    }
    if k, p: nat :| 0 <= k < |words| && StandsAt(text, words[k], p) {
      ContainsExactlyWhen(text, words[k]);
    }
  }

  /** The key names a secret. */
  ghost predicate NamesSecret(key: string) {
    OneStandsIn(key, ["api_key", "apikey", "authorization", "cookie", "password", "secret", "token"])
  }

  lemma SensitiveExactlyWhen(key: string)
    ensures Sensitive(key) <==> NamesSecret(key)
  {
    ContainsOneExactlyWhen(key, SENSITIVE_KEYWORDS);
  }

  /**
   What is stored for a value: the same shape and keys at every depth, three stars for every key that
   names a secret, redacted texts, and every other leaf as it was.
   */
  ghost predicate Redacted(redact: string -> string, value: Json, stored: Json)
    decreases value
  {
    match value
    case Object(fields) =>
      && stored.Object? && |stored.fields| == |fields|
      && forall i :: 0 <= i < |fields| ==>
           && stored.fields[i].key == fields[i].key
           && (NamesSecret(fields[i].key) ==> stored.fields[i].value == Text("***"))
           && (!NamesSecret(fields[i].key) ==> Redacted(redact, fields[i].value, stored.fields[i].value))
    case List(items) =>
      && stored.List? && |stored.items| == |items|
      && forall i :: 0 <= i < |items| ==> Redacted(redact, items[i], stored.items[i])
    case Text(text) => stored == Text(redact(text))
    case _ => stored == value
  }

  lemma {:induction false} SanitizeRedacts(redact: string -> string, value: Json)
    ensures Redacted(redact, value, Sanitize(redact, value))
    decreases value
  {
    match value
    case Object(fields) =>
      forall i | 0 <= i < |fields|
        ensures Sensitive(fields[i].key) <==> NamesSecret(fields[i].key)
        ensures Redacted(redact, fields[i].value, Sanitize(redact, fields[i].value))
      {
        SensitiveExactlyWhen(fields[i].key);
        SanitizeRedacts(redact, fields[i].value);
      }
    case List(items) =>
      forall i | 0 <= i < |items| ensures Redacted(redact, items[i], Sanitize(redact, items[i])) {
        SanitizeRedacts(redact, items[i]);
      }
    case _ =>
  }
}
