/**
 * Redaction of request data before it is logged
 * (src/shared/interceptors/logging.interceptor.ts, sanitizeData and redactSensitiveFields),
 * as a map on JSON values. RedactionHeap proves that the in-place code computes it.
 */
module Redaction {
  import opened Prelude

  datatype Json =
    | Null
    | Bool(b: bool)
    | Num(n: real)
    | Str(s: string)
    | Arr(items: seq<Json>)
    | Obj(fields: map<string, Json>)

  const REDACTED := "[REDACTED]"

  // ---- which keys are sensitive ------------------------------------------------------------

  const SENSITIVE_FIELDS: seq<string> := [
    "password", "token", "refreshToken", "accessToken", "authorization", "secret", "key",
    "apiKey", "credit_card", "creditCard", "cvv", "ssn", "socialSecurityNumber"
  ]

  /** The list that is left when words containing another word of the list are dropped. */
  const SHORT_WORDS: seq<string> := [
    "password", "token", "authorization", "secret", "key",
    "credit_card", "creditcard", "cvv", "ssn", "socialsecuritynumber"
  ]

  /**
   * String.prototype.toLowerCase, one character at a time. Besides A-Z exactly two characters
   * have an ASCII letter in their lower-case form: the Kelvin sign and the dotted capital I.
   * Every other character is left alone here: its lower-case form has no ASCII letter, so it
   * cannot take part in a match with an ASCII word.
   */
  function LowerChar(c: char): string {
    if 'A' <= c <= 'Z' then [(c as int + 32) as char]
    else if c == '\U{212A}' then "k"
    else if c == '\U{0130}' then "i\U{0307}"
    else [c]
  }

  function Lower(s: string): string {
    if s == [] then [] else LowerChar(s[0]) + Lower(s[1..])
  }

  predicate OccursAt(s: string, word: string, i: nat) {
    i + |word| <= |s| && s[i..i + |word|] == word
  }

  /** String.prototype.includes. */
  predicate Includes(s: string, word: string) {
    exists i :: 0 <= i <= |s| && OccursAt(s, word, i)
  }

  /** The test of the source: some field, lower-cased, occurs in the lower-cased key. */
  predicate Sensitive(key: string, words: seq<string>) {
    exists f :: f in words && Includes(Lower(key), Lower(f))
  }

  // ---- the redaction of a value ------------------------------------------------------------

  function Redact(j: Json, words: seq<string>): Json {
    match j
    case Arr(items) => Arr(seq(|items|, i requires 0 <= i < |items| => Redact(items[i], words)))
    case Obj(fields) => Obj(map k | k in fields :: if Sensitive(k, words) then Str(REDACTED) else Redact(fields[k], words))
    case _ => j
  }

  /** Equal except below sensitive keys. */
  ghost predicate SameOutside(a: Json, b: Json, words: seq<string>) {
    match a
    case Arr(items) =>
      b.Arr? && |b.items| == |items| && forall i :: 0 <= i < |items| ==> SameOutside(items[i], b.items[i], words)
    case Obj(fields) =>
      b.Obj? && b.fields.Keys == fields.Keys
      && forall k :: k in fields && !Sensitive(k, words) ==> SameOutside(fields[k], b.fields[k], words)
    case _ => a == b
  }

  /** Key sets and array lengths are kept, and a leaf is kept whole. */
  lemma RedactionKeepsShape(j: Json, words: seq<string>)
    ensures j.Arr? ==> Redact(j, words).Arr? && |Redact(j, words).items| == |j.items|
    ensures j.Obj? ==> Redact(j, words).Obj? && Redact(j, words).fields.Keys == j.fields.Keys
    ensures !j.Arr? && !j.Obj? ==> Redact(j, words) == j
  {}

  lemma RedactedItem(j: Json, i: nat, words: seq<string>)
    requires j.Arr? && i < |j.items|
    ensures Redact(j, words).Arr? && |Redact(j, words).items| == |j.items|
    ensures Redact(j, words).items[i] == Redact(j.items[i], words)
  {}

  lemma RedactedField(j: Json, k: string, words: seq<string>)
    requires j.Obj? && k in j.fields
    ensures Redact(j, words).Obj? && Redact(j, words).fields.Keys == j.fields.Keys
    ensures Redact(j, words).fields[k] == if Sensitive(k, words) then Str(REDACTED) else Redact(j.fields[k], words)
  {}

  lemma ArraysRedactAlike(a: Json, b: Json, words: seq<string>)
    requires a.Arr? && b.Arr? && |a.items| == |b.items|
    requires forall i :: 0 <= i < |a.items| ==>
               (Redact(a.items[i], words) == Redact(b.items[i], words) <==> SameOutside(a.items[i], b.items[i], words))
    ensures Redact(a, words) == Redact(b, words) <==> SameOutside(a, b, words)
  {
    hide Redact;
    RedactionKeepsShape(a, words);
    RedactionKeepsShape(b, words);
    var ra, rb := Redact(a, words).items, Redact(b, words).items;
    forall i | 0 <= i < |a.items| ensures ra[i] == rb[i] <==> SameOutside(a.items[i], b.items[i], words) {
      RedactedItem(a, i, words);
      RedactedItem(b, i, words);
    }
    assert (forall i :: 0 <= i < |ra| ==> ra[i] == rb[i]) ==> ra == rb;
  }

  lemma ObjectsRedactAlike(a: Json, b: Json, words: seq<string>)
    requires a.Obj? && b.Obj? && a.fields.Keys == b.fields.Keys
    requires forall k :: k in a.fields ==>
               (Redact(a.fields[k], words) == Redact(b.fields[k], words) <==> SameOutside(a.fields[k], b.fields[k], words))
    ensures Redact(a, words) == Redact(b, words) <==> SameOutside(a, b, words)
  {
    hide Redact, Sensitive;
    RedactionKeepsShape(a, words);
    RedactionKeepsShape(b, words);
    var ra, rb := Redact(a, words).fields, Redact(b, words).fields;
    forall k | k in a.fields
      ensures ra[k] == rb[k] <==> Sensitive(k, words) || SameOutside(a.fields[k], b.fields[k], words)
    {
      RedactedField(a, k, words);
      RedactedField(b, k, words);
    }
    assert (forall k :: k in ra ==> ra[k] == rb[k]) ==> ra == rb;
  }

  /** Exactness and noninterference: two values redact alike just when they agree outside sensitive keys. */
  lemma {:induction false} RedactionForgetsExactlySensitive(a: Json, b: Json, words: seq<string>)
    ensures Redact(a, words) == Redact(b, words) <==> SameOutside(a, b, words)
    decreases a
  {
    RedactionKeepsShape(a, words);
    RedactionKeepsShape(b, words);
    if a.Arr? && b.Arr? {
      if |a.items| == |b.items| {
        forall i | 0 <= i < |a.items|
          ensures Redact(a.items[i], words) == Redact(b.items[i], words) <==> SameOutside(a.items[i], b.items[i], words)
        {
          RedactionForgetsExactlySensitive(a.items[i], b.items[i], words);
        }
        ArraysRedactAlike(a, b, words);
      }
    } else if a.Obj? && b.Obj? {
      if a.fields.Keys == b.fields.Keys {
        forall k | k in a.fields
          ensures Redact(a.fields[k], words) == Redact(b.fields[k], words) <==> SameOutside(a.fields[k], b.fields[k], words)
        {
          RedactionForgetsExactlySensitive(a.fields[k], b.fields[k], words);
        }
        ObjectsRedactAlike(a, b, words);
      }
    }
  }

  lemma {:induction false} RedactedIsSameOutside(j: Json, words: seq<string>)
    ensures SameOutside(Redact(j, words), j, words)
    decreases j
  {
    match j
    case Arr(items) =>
      forall i | 0 <= i < |items| ensures SameOutside(Redact(items[i], words), items[i], words) {
        RedactedIsSameOutside(items[i], words);
      }
    case Obj(fields) =>
      forall k | k in fields ensures SameOutside(Redact(fields[k], words), fields[k], words) {
        RedactedIsSameOutside(fields[k], words);
      }
    case _ =>
  }

  /** Logging an already redacted value changes nothing. */
  lemma {:induction false} RedactionIsIdempotent(j: Json, words: seq<string>)
    ensures Redact(Redact(j, words), words) == Redact(j, words)
  {
    RedactedIsSameOutside(j, words);
    RedactionForgetsExactlySensitive(Redact(j, words), j, words);
  }

  // ---- what is found under a path ----------------------------------------------------------

  datatype Step = Key(k: string) | Index(i: nat)

  function At(j: Json, path: seq<Step>): Option<Json> {
    if path == [] then Some(j)
    else match (j, path[0])
      case (Obj(fields), Key(k)) => if k in fields then At(fields[k], path[1..]) else None
      case (Arr(items), Index(i)) => if i < |items| then At(items[i], path[1..]) else None
      case _ => None
  }

  predicate Clean(path: seq<Step>, words: seq<string>) {
    forall s :: s in path && s.Key? ==> !Sensitive(s.k, words)
  }

  /**
   * Along a path free of sensitive keys the redacted value has exactly what the original has:
   * a missing path stays missing, a leaf keeps its value, an object or array is found redacted
   * (so with its own key set or length).
   */
  lemma {:induction false} CleanPathsKeepTheirValue(j: Json, path: seq<Step>, words: seq<string>)
    requires Clean(path, words)
    ensures At(j, path).None? ==> At(Redact(j, words), path).None?
    ensures At(j, path).Some? ==> At(Redact(j, words), path) == Some(Redact(At(j, path).value, words))
    ensures At(j, path).Some? && !At(j, path).value.Arr? && !At(j, path).value.Obj? ==> At(Redact(j, words), path) == At(j, path)
  {
    if path != [] {
      assert path[0] in path;
      match (j, path[0])
      case (Obj(fields), Key(k)) =>
        if k in fields { CleanPathsKeepTheirValue(fields[k], path[1..], words); }
      case (Arr(items), Index(i)) =>
        if i < |items| { CleanPathsKeepTheirValue(items[i], path[1..], words); }
      case _ =>
    }
  }

  /** Under the first sensitive key of a path there is the marker, at that key and nowhere below it. */
  lemma {:induction false} SensitivePathsLeadToTheMarker(j: Json, path: seq<Step>, n: nat, words: seq<string>)
    requires n < |path| && path[n].Key? && Sensitive(path[n].k, words)
    requires forall i :: 0 <= i < n && path[i].Key? ==> !Sensitive(path[i].k, words)
    ensures At(Redact(j, words), path) ==
              if At(j, path[..n + 1]).Some? && |path| == n + 1 then Some(Str("[REDACTED]")) else None
    decreases n
  {
    hide Redact, Sensitive;
    RedactionKeepsShape(j, words);
    var head := path[..n + 1];
    assert head[0] == path[0] && head[1..] == path[1..][..n];
    match (j, path[0])
    case (Obj(fields), Key(k)) =>
      if k in fields {
        RedactedField(j, k, words);
        if n > 0 { SensitivePathsLeadToTheMarker(fields[k], path[1..], n - 1, words); }
      }
    case (Arr(items), Index(i)) =>
      if i < |items| {
        RedactedItem(j, i, words);
        SensitivePathsLeadToTheMarker(items[i], path[1..], n - 1, words);
      }
    case _ =>
  }

  // ---- the decision on a key ---------------------------------------------------------------

  predicate IsAscii(s: string) {
    forall i :: 0 <= i < |s| ==> s[i] < 128 as char
  }

  function LowerAscii(c: char): char {
    if 'A' <= c <= 'Z' then (c as int + 32) as char else c
  }

  lemma {:induction false} LowerOfAscii(s: string, lower: string)
    requires IsAscii(s) && |lower| == |s|
    requires forall i :: 0 <= i < |s| ==> lower[i] == LowerAscii(s[i])
    ensures Lower(s) == lower
  {
    if s != [] {
      LowerOfAscii(s[1..], lower[1..]);
      assert lower == [lower[0]] + lower[1..];
    }
  }

  lemma IncludesWithin(s: string, longer: string, word: string)
    requires Includes(s, longer) && Includes(longer, word)
    ensures Includes(s, word)
  {
    var i: nat :| i <= |s| && OccursAt(s, longer, i);
    var k: nat :| k <= |longer| && OccursAt(longer, word, k);
    forall n | 0 <= n < |word| ensures s[i + k + n] == word[n] {
      assert s[i + k + n] == s[i..i + |longer|][k + n];
      assert word[n] == longer[k..k + |word|][n];
    }
    assert OccursAt(s, word, i + k);
  }

  /** Words both lists have. */
  const PLAIN_WORDS: seq<string> := [
    "password", "token", "authorization", "secret", "key", "credit_card", "cvv", "ssn"
  ]

  lemma PlainWordIsLowerCase(w: string)
    requires w in PLAIN_WORDS
    ensures Lower(w) == w
  {
    assert IsAscii(w);
    LowerOfAscii(w, w);
  }

  lemma FieldContains(f: string, lower: string, w: string, at: nat)
    requires IsAscii(f) && |lower| == |f| && forall i :: 0 <= i < |f| ==> lower[i] == LowerAscii(f[i])
    requires at + |w| <= |lower| && forall n :: 0 <= n < |w| ==> lower[at + n] == w[n]
    ensures Lower(f) == lower && Includes(Lower(f), w)
  {
    LowerOfAscii(f, lower);
    assert OccursAt(lower, w, at);
  }

  lemma CamelCaseFields(f: string)
    requires f in SENSITIVE_FIELDS && f !in PLAIN_WORDS
    ensures f in {"refreshToken", "accessToken", "apiKey", "creditCard", "socialSecurityNumber"}
  {}

  lemma RefreshTokenHolds(f: string) requires f == "refreshToken" ensures Includes(Lower(f), SHORT_WORDS[1]) {
    FieldContains(f, "refreshtoken", "token", 7);
  }

  lemma AccessTokenHolds(f: string) requires f == "accessToken" ensures Includes(Lower(f), SHORT_WORDS[1]) {
    FieldContains(f, "accesstoken", "token", 6);
  }

  lemma ApiKeyHolds(f: string) requires f == "apiKey" ensures Includes(Lower(f), SHORT_WORDS[4]) {
    FieldContains(f, "apikey", "key", 3);
  }

  lemma CreditCardHolds(f: string) requires f == "creditCard"
    ensures Includes(Lower(f), SHORT_WORDS[6]) && Lower(f) == SHORT_WORDS[6]
  {
    FieldContains(f, "creditcard", "creditcard", 0);
  }

  lemma SocialSecurityHolds(f: string) requires f == "socialSecurityNumber"
    ensures Includes(Lower(f), SHORT_WORDS[9]) && Lower(f) == SHORT_WORDS[9]
  {
    FieldContains(f, "socialsecuritynumber", "socialsecuritynumber", 0);
  }

  lemma PlainWordIndex(w: string) returns (n: nat)
    requires w in PLAIN_WORDS
    ensures n < |SHORT_WORDS| && SHORT_WORDS[n] == w
  {
    var i :| 0 <= i < |PLAIN_WORDS| && PLAIN_WORDS[i] == w;
    n := if i <= 5 then i else i + 1;
  }

  /** Every field of the source, in lower case, contains a word of the short list. */
  lemma FieldHoldsShortWord(f: string) returns (n: nat)
    requires f in SENSITIVE_FIELDS
    ensures n < |SHORT_WORDS| && Includes(Lower(f), SHORT_WORDS[n])
  {
    if f in PLAIN_WORDS {
      PlainWordIsLowerCase(f);
      n := PlainWordIndex(f);
      assert OccursAt(f, f, 0);
    } else {
      CamelCaseFields(f);
      if f == "refreshToken" { RefreshTokenHolds(f); n := 1; }
      else if f == "accessToken" { AccessTokenHolds(f); n := 1; }
      else if f == "apiKey" { ApiKeyHolds(f); n := 4; }
      else if f == "creditCard" { CreditCardHolds(f); n := 6; }
      else { SocialSecurityHolds(f); n := 9; }
    }
  }

  lemma ShortWordsBeyondPlain(w: string)
    requires w in SHORT_WORDS && w !in PLAIN_WORDS
    ensures w == SHORT_WORDS[6] || w == SHORT_WORDS[9]
  {}

  lemma PlainWordsAreFields(w: string)
    requires w in PLAIN_WORDS
    ensures w in SENSITIVE_FIELDS
  {}

  /** Every word of the short list is a field of the source in lower case. */
  lemma ShortWordIsField(w: string) returns (f: string)
    requires w in SHORT_WORDS
    ensures f in SENSITIVE_FIELDS && Lower(f) == w
  {
    if w in PLAIN_WORDS {
      PlainWordIsLowerCase(w);
      PlainWordsAreFields(w);
      f := w;
    } else {
      ShortWordsBeyondPlain(w);
      if w == SHORT_WORDS[6] {
        f := SENSITIVE_FIELDS[9];
        CreditCardHolds(f);
      } else {
        f := SENSITIVE_FIELDS[12];
        SocialSecurityHolds(f);
      }
    }
  }

  lemma DecidedByShortWords(key: string)
    ensures Sensitive(key, SENSITIVE_FIELDS) <==> exists w :: w in SHORT_WORDS && Includes(Lower(key), w)
  {
    if f :| f in SENSITIVE_FIELDS && Includes(Lower(key), Lower(f)) {
      var n := FieldHoldsShortWord(f);
      IncludesWithin(Lower(key), Lower(f), SHORT_WORDS[n]);
    }
    if w :| w in SHORT_WORDS && Includes(Lower(key), w) {
      var f := ShortWordIsField(w);
    }
  }

  lemma ShortWordsAre(w: string)
    ensures w in SHORT_WORDS <==>
              w in {"password", "token", "authorization", "secret", "key",
                    "credit_card", "creditcard", "cvv", "ssn", "socialsecuritynumber"}
  {}

  /** refreshToken, accessToken and apiKey add nothing: ten words decide as the thirteen do. */
  lemma ShorterListDecidesAlike(key: string)
    ensures Sensitive(key, SENSITIVE_FIELDS) <==>
              exists w :: && w in {"password", "token", "authorization", "secret", "key",
                                   "credit_card", "creditcard", "cvv", "ssn", "socialsecuritynumber"}
                          && Includes(Lower(key), w)
  {
    DecidedByShortWords(key);
    hide SHORT_WORDS, SENSITIVE_FIELDS, Lower, Sensitive, Includes;
    forall w ensures w in SHORT_WORDS <==>
      w in {"password", "token", "authorization", "secret", "key",
            "credit_card", "creditcard", "cvv", "ssn", "socialsecuritynumber"}
    {
      ShortWordsAre(w);
    }
  }

  lemma {:induction false} LowerJoins(a: string, b: string)
    ensures Lower(a + b) == Lower(a) + Lower(b)
  {
    if a == [] {
      assert a + b == b;
    } else {
      LowerJoins(a[1..], b);
      assert (a + b)[1..] == a[1..] + b;
    }
  }

  /** A text includes a word wherever the word stands in it. */
  lemma IncludesAnywhere(a: string, word: string, b: string)
    ensures Includes(a + word + b, word)
  {
    assert OccursAt(a + word + b, word, |a|);
  }

  /** Any key with one of the thirteen names in it, in whatever place, is sensitive. */
  lemma KeysAroundAFieldAreSensitive(a: string, f: string, b: string)
    requires f in {"password", "token", "refreshToken", "accessToken", "authorization", "secret", "key", "apiKey",
                   "credit_card", "creditCard", "cvv", "ssn", "socialSecurityNumber"}
    ensures Sensitive(a + f + b, SENSITIVE_FIELDS)
  {
    TheThirteen(f);
    hide SENSITIVE_FIELDS, Includes;
    LowerJoins(a + f, b);
    LowerJoins(a, f);
    IncludesAnywhere(Lower(a), Lower(f), Lower(b));
  }

  lemma TheThirteen(f: string)
    ensures f in SENSITIVE_FIELDS <==>
              f in {"password", "token", "refreshToken", "accessToken", "authorization", "secret", "key", "apiKey",
                    "credit_card", "creditCard", "cvv", "ssn", "socialSecurityNumber"}
  {}

  lemma {:induction false} LowerIgnoresCase(a: string, b: string)
    requires |a| == |b| && forall i :: 0 <= i < |a| ==> LowerAscii(a[i]) == LowerAscii(b[i])
    ensures Lower(a) == Lower(b)
  {
    if a != [] {
      assert LowerAscii(a[0]) == LowerAscii(b[0]);
      LowerIgnoresCase(a[1..], b[1..]);
    }
  }

  /** Keys that differ only in the case of letters are treated alike. */
  lemma CaseOfAKeyIsIrrelevant(a: string, b: string, words: seq<string>)
    requires |a| == |b| && forall i :: 0 <= i < |a| ==> LowerAscii(a[i]) == LowerAscii(b[i])
    ensures Sensitive(a, words) <==> Sensitive(b, words)
  {
    LowerIgnoresCase(a, b);
  }
}
