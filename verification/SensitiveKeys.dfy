// apps/audit-log-service/src/audit-logs/audit-logs.service.ts: the recursive scan
// that keeps secrets out of stored audit details.
module SensitiveKeys {
  import opened Common
  import opened Text
  import opened Json

  const SENSITIVE_DETAIL_KEYS: set<string> := {
    "authorization", "cookie", "password", "accesstoken", "refreshtoken",
    "token", "secret", "apikey", "api_key", "privatekey", "private_key",
    "sql", "stack", "stacktrace", "stack_trace"
  }

  /** `toLowerCase` on one character, as far as it can yield an ASCII letter: besides
      A-Z only the Kelvin sign does (U+0130 yields two characters, one of them not
      ASCII, so it never completes a listed key). */
  function Lower(c: char): char {
    if c == '\U{212A}' then 'k' else LowerAscii(c)
  }

  /** `key.replace(/[-_\s]/g, "").toLowerCase()` */
  function Normalize(key: string): string {
    if key == "" then ""
    else if key[0] == '-' || key[0] == '_' || IsSpace(key[0]) then Normalize(key[1..])
    else [Lower(key[0])] + Normalize(key[1..])
  }

  predicate Sensitive(key: string) {
    Normalize(key) in SENSITIVE_DETAIL_KEYS
  }

  lemma {:induction false} NormalizeDigits(key: string)
    requires forall i :: 0 <= i < |key| ==> '0' <= key[i] <= '9'
    ensures Normalize(key) == key
  {
    if key != "" {
      NormalizeDigits(key[1..]);
    }
  }

  lemma ListedKeysStartWithLetter(key: string)
    requires key in SENSITIVE_DETAIL_KEYS
    ensures key != "" && key[0] >= 'a'
  {
  }

  lemma IndexIsNotSensitive(index: nat)
    ensures !Sensitive(Decimal(index))
  {
    NormalizeDigits(Decimal(index));
    if Decimal(index) in SENSITIVE_DETAIL_KEYS {
      ListedKeysStartWithLetter(Decimal(index));
    }
  }

  // ---- What normalising does ----

  /** What `[-_\s]` matches. */
  predicate IsSeparator(c: char) {
    c in {'-', '_', ' ', '\t', '\n', '\r'} || IsSpace(c)
  }

  /** Normalising goes character by character. */
  lemma {:induction false} NormalizeJoins(a: string, b: string)
    ensures Normalize(a + b) == Normalize(a) + Normalize(b)
  {
    if a == "" {
      assert a + b == b;
    } else {
      assert (a + b)[0] == a[0] && (a + b)[1..] == a[1..] + b;
      NormalizeJoins(a[1..], b);
    }
  }

  /** A separator counts for nothing wherever it stands. */
  lemma SeparatorsAreIgnored(a: string, separator: char, b: string)
    requires IsSeparator(separator)
    ensures Normalize(a + [separator] + b) == Normalize(a + b)
  {
    NormalizeJoins(a + [separator], b);
    NormalizeJoins(a, [separator]);
    NormalizeJoins(a, b);
    assert Normalize([separator]) == "";
  }

  /** Nor does the case of a letter. */
  lemma CaseIsIgnored(a: string, letter: char, b: string)
    requires 'A' <= letter <= 'Z'
    ensures Normalize(a + [letter] + b) == Normalize(a + [(letter as int + 32) as char] + b)
  {
    var small := (letter as int + 32) as char;
    NormalizeJoins(a + [letter], b);
    NormalizeJoins(a, [letter]);
    NormalizeJoins(a + [small], b);
    NormalizeJoins(a, [small]);
    assert [letter][1..] == "" && [small][1..] == "";
  }

  predicate AllSeparators(s: string) {
    forall i :: 0 <= i < |s| ==> IsSeparator(s[i])
  }

  /** Letters with something written before, between and after them. */
  function Weave(between: seq<string>, letters: string): string
    requires |between| == |letters| + 1
  {
    if letters == "" then between[0] else between[0] + [letters[0]] + Weave(between[1..], letters[1..])
  }

  predicate SameButCase(letters: string, word: string) {
    && |letters| == |word|
    && forall i :: 0 <= i < |word| ==>
         !IsSeparator(letters[i])
         && (letters[i] == word[i] || ('A' <= letters[i] <= 'Z' && letters[i] as int + 32 == word[i] as int)
             || (letters[i] == '\U{212A}' && word[i] == 'k'))
  }

  /** The key is the word, written in letters of any case with any separators in it. */
  ghost predicate Spells(key: string, word: string) {
    exists between: seq<string>, letters: string ::
      |between| == |letters| + 1 && (forall i :: 0 <= i < |between| ==> AllSeparators(between[i]))
      && SameButCase(letters, word) && key == Weave(between, letters)
  }

  lemma {:induction false} SeparatorsVanish(s: string)
    requires AllSeparators(s)
    ensures Normalize(s) == ""
  {
    if s != "" {
      SeparatorsVanish(s[1..]);
    }
  }

  predicate IsPlainWord(word: string) {
    forall i :: 0 <= i < |word| ==> 'a' <= word[i] <= 'z'
  }

  lemma {:induction false} WeaveNormalizes(between: seq<string>, letters: string, word: string)
    requires |between| == |letters| + 1 && (forall i :: 0 <= i < |between| ==> AllSeparators(between[i]))
    requires SameButCase(letters, word) && IsPlainWord(word)
    ensures Normalize(Weave(between, letters)) == word
    decreases |letters|
  {
    SeparatorsVanish(between[0]);
    if letters != "" {
      var rest := Weave(between[1..], letters[1..]);
      WeaveNormalizes(between[1..], letters[1..], word[1..]);
      NormalizeJoins(between[0] + [letters[0]], rest);
      NormalizeJoins(between[0], [letters[0]]);
      assert [letters[0]][1..] == "";
      assert Normalize([letters[0]]) == [word[0]];
      assert [word[0]] + word[1..] == word;
    }
  }

  lemma SeparatorJoinsWeave(c: char, between: seq<string>, letters: string) returns (longer: seq<string>)
    requires |between| == |letters| + 1 && (forall i :: 0 <= i < |between| ==> AllSeparators(between[i]))
    requires IsSeparator(c)
    ensures |longer| == |letters| + 1 && forall i :: 0 <= i < |longer| ==> AllSeparators(longer[i])
    ensures Weave(longer, letters) == [c] + Weave(between, letters)
  {
    longer := [[c] + between[0]] + between[1..];
    assert longer[1..] == between[1..];
    assert AllSeparators(longer[0]);
  }

  lemma LetterJoinsWeave(c: char, between: seq<string>, letters: string, word: string)
    requires |between| == |letters| + 1 && (forall i :: 0 <= i < |between| ==> AllSeparators(between[i]))
    requires word != "" && SameButCase(letters, word[1..]) && SameButCase([c], [word[0]])
    ensures forall i :: 0 <= i <= |between| ==> AllSeparators(([""] + between)[i])
    ensures SameButCase([c] + letters, word)
    ensures Weave([""] + between, [c] + letters) == [c] + Weave(between, letters)
  {
    assert ([""] + between)[1..] == between && ([c] + letters)[1..] == letters;
  }

  lemma {:induction false} NormalizedIsWoven(key: string)
    returns (between: seq<string>, letters: string)
    requires IsPlainWord(Normalize(key))
    ensures |between| == |letters| + 1 && forall i :: 0 <= i < |between| ==> AllSeparators(between[i])
    ensures SameButCase(letters, Normalize(key)) && key == Weave(between, letters)
    decreases key
  {
    if key == "" {
      return [""], "";
    }
    hide Weave, AllSeparators;
    var c, rest := key[0], key[1..];
    if c == '-' || c == '_' || IsSpace(c) {
      between, letters := NormalizedIsWoven(rest);
      between := SeparatorJoinsWeave(c, between, letters);
    } else {
      assert Normalize(key)[1..] == Normalize(rest);
      between, letters := NormalizedIsWoven(rest);
      LetterJoinsWeave(c, between, letters, Normalize(key));
      between, letters := [""] + between, [c] + letters;
    }
  }

  /** Normalising tells exactly which key spells which word. */
  lemma NormalizeIsSpelling(key: string, word: string)
    requires IsPlainWord(word)
    ensures Normalize(key) == word <==> Spells(key, word)
  {
    if Normalize(key) == word {
      var between, letters := NormalizedIsWoven(key);
    }
    if Spells(key, word) {
      var between: seq<string>, letters: string :|
        |between| == |letters| + 1 && (forall i :: 0 <= i < |between| ==> AllSeparators(between[i]))
        && SameButCase(letters, word) && key == Weave(between, letters);
      WeaveNormalizes(between, letters, word);
    }
  }

  lemma {:induction false} NormalizedHasNoSeparators(key: string)
    ensures forall i :: 0 <= i < |Normalize(key)| ==> Normalize(key)[i] != '-' && Normalize(key)[i] != '_'
  {
    if key != "" {
      NormalizedHasNoSeparators(key[1..]);
    }
  }

  lemma ListedIsPlain(word: string)
    requires word in SENSITIVE_DETAIL_KEYS && forall i :: 0 <= i < |word| ==> word[i] != '_'
    ensures IsPlainWord(word)
  {
  }

  lemma UnderscoreIsNeverSpelled(key: string, word: string, i: nat)
    requires i < |word| && word[i] == '_'
    ensures !Spells(key, word)
  {
  }

  /** A key is sensitive exactly if it spells a listed word, in whatever case and with
      whatever separators. */
  lemma SensitiveIffSpelled(key: string)
    ensures Sensitive(key) <==> exists word :: word in SENSITIVE_DETAIL_KEYS && Spells(key, word)
  {
    hide Spells, Normalize, IsPlainWord;
    NormalizedHasNoSeparators(key);
    if Sensitive(key) {
      ListedIsPlain(Normalize(key));
      NormalizeIsSpelling(key, Normalize(key));
    }
    forall word | word in SENSITIVE_DETAIL_KEYS && Spells(key, word) ensures Sensitive(key) {
      if i :| 0 <= i < |word| && word[i] == '_' {
        UnderscoreIsNeverSpelled(key, word, i);
      } else {
        ListedIsPlain(word);
        NormalizeIsSpelling(key, word);
      }
    }
  }

  // ---- Reference definitions: every object key, and every sensitive path ----

  /** All object keys of `v`, at any depth. */
  ghost function KeysOf(v: Json): set<string>
    decreases v, 1
  {
    match v
    case Arr(items) => ItemKeys(items)
    case Obj(fields) => FieldKeys(fields)
    case _ => {}
  }

  ghost function ItemKeys(items: seq<Json>): set<string>
    decreases items, 0
  {
    if items == [] then {} else KeysOf(items[0]) + ItemKeys(items[1..])
  }

  ghost function FieldKeys(fields: seq<Field>): set<string>
    decreases fields, 0
  {
    if fields == [] then {}
    else {fields[0].key} + KeysOf(fields[0].value) + FieldKeys(fields[1..])
  }

  ghost predicate Clean(v: Json) {
    forall key :: key in KeysOf(v) ==> !Sensitive(key)
  }

  /** `u` is `v` or stands somewhere inside it. */
  ghost predicate Inside(u: Json, v: Json)
    decreases v
  {
    || u == v
    || (v.Arr? && exists i :: 0 <= i < |v.items| && Inside(u, v.items[i]))
    || (v.Obj? && exists i :: 0 <= i < |v.fields| && Inside(u, v.fields[i].value))
  }

  predicate HasKey(u: Json, key: string) {
    u.Obj? && exists i :: 0 <= i < |u.fields| && u.fields[i].key == key
  }

  lemma KeysOfArray(v: Json, key: string)
    requires v.Arr? && (key in KeysOf(v) <==> exists i :: 0 <= i < |v.items| && key in KeysOf(v.items[i]))
    requires forall i :: 0 <= i < |v.items| ==>
      (key in KeysOf(v.items[i]) <==> exists u :: Inside(u, v.items[i]) && HasKey(u, key))
    ensures key in KeysOf(v) <==> exists u :: Inside(u, v) && HasKey(u, key)
  {
    hide KeysOf;
    if i :| 0 <= i < |v.items| && key in KeysOf(v.items[i]) {
      var u :| Inside(u, v.items[i]) && HasKey(u, key);
      assert Inside(u, v);
    }
    if u :| Inside(u, v) && HasKey(u, key) {
      var i :| 0 <= i < |v.items| && Inside(u, v.items[i]);
    }
  }

  lemma KeysOfObject(v: Json, key: string)
    requires v.Obj? && (key in KeysOf(v) <==>
      exists i :: 0 <= i < |v.fields| && (v.fields[i].key == key || key in KeysOf(v.fields[i].value)))
    requires forall i :: 0 <= i < |v.fields| ==>
      (key in KeysOf(v.fields[i].value) <==> exists u :: Inside(u, v.fields[i].value) && HasKey(u, key))
    ensures key in KeysOf(v) <==> exists u :: Inside(u, v) && HasKey(u, key)
  {
    hide KeysOf;
    if i :| 0 <= i < |v.fields| && key in KeysOf(v.fields[i].value) {
      var u :| Inside(u, v.fields[i].value) && HasKey(u, key);
      assert Inside(u, v);
    }
    if HasKey(v, key) {
      assert Inside(v, v);
    }
    if u :| Inside(u, v) && HasKey(u, key) && u != v {
      var i :| 0 <= i < |v.fields| && Inside(u, v.fields[i].value);
    }
  }

  /** The keys of a value are those of all objects inside it, at whatever depth. */
  lemma {:induction false} KeysAtAnyDepth(v: Json, key: string)
    ensures key in KeysOf(v) <==> exists u :: Inside(u, v) && HasKey(u, key)
    decreases v, 1
  {
    match v {
      case Arr(items) =>
        hide Inside, HasKey;
        KeysOfItems(items, key);
        KeysOfArray(v, key);
      case Obj(fields) =>
        hide Inside, HasKey;
        KeysOfFields(fields, key);
        KeysOfObject(v, key);
      case _ =>
    }
  }

  lemma {:induction false} KeysOfItems(items: seq<Json>, key: string)
    ensures key in ItemKeys(items) <==> exists i :: 0 <= i < |items| && key in KeysOf(items[i])
    ensures forall i :: 0 <= i < |items| ==>
      (key in KeysOf(items[i]) <==> exists u :: Inside(u, items[i]) && HasKey(u, key))
    decreases items, 0
  {
    if items != [] {
      KeysAtAnyDepth(items[0], key);
      KeysOfItems(items[1..], key);
      assert forall i :: 1 <= i < |items| ==> items[i] == items[1..][i - 1];
      if i :| 0 <= i < |items[1..]| && key in KeysOf(items[1..][i]) {
        assert key in KeysOf(items[i + 1]);
      }
    }
  }

  lemma {:induction false} KeysOfFields(fields: seq<Field>, key: string)
    ensures key in FieldKeys(fields) <==>
      exists i :: 0 <= i < |fields| && (fields[i].key == key || key in KeysOf(fields[i].value))
    ensures forall i :: 0 <= i < |fields| ==>
      (key in KeysOf(fields[i].value) <==> exists u :: Inside(u, fields[i].value) && HasKey(u, key))
    decreases fields, 0
  {
    if fields != [] {
      KeysAtAnyDepth(fields[0].value, key);
      KeysOfFields(fields[1..], key);
      assert forall i :: 1 <= i < |fields| ==> fields[i] == fields[1..][i - 1];
      if i :| 0 <= i < |fields[1..]| && (fields[1..][i].key == key || key in KeysOf(fields[1..][i].value)) {
        assert fields[i + 1].key == key || key in KeysOf(fields[i + 1].value);
      }
    }
  }

  /** No object inside has a key that spells a listed word. */
  ghost predicate Secretless(v: Json) {
    forall u, key, word :: Inside(u, v) && HasKey(u, key) && word in SENSITIVE_DETAIL_KEYS ==> !Spells(key, word)
  }

  lemma CleanIffSecretless(v: Json)
    ensures Clean(v) <==> Secretless(v)
  {
    hide Inside, HasKey, Spells, Sensitive, KeysOf;
    if Clean(v) {
      forall u, key, word | Inside(u, v) && HasKey(u, key) && word in SENSITIVE_DETAIL_KEYS
        ensures !Spells(key, word)
      {
        KeysAtAnyDepth(v, key);
        SensitiveIffSpelled(key);
      }
    }
    if Secretless(v) {
      forall key | key in KeysOf(v) ensures !Sensitive(key) {
        KeysAtAnyDepth(v, key);
        SensitiveIffSpelled(key);
      }
    }
  }

  function Extend(path: string, key: string): string {
    if path != "" then path + "." + key else key
  }

  function At(path: string, index: nat): string {
    path + "[" + Decimal(index) + "]"
  }

  /** The paths of all sensitive keys below `path`, parents before children, arrays by
      index and objects in property order; no early exit. */
  function Occurrences(v: Json, path: string): seq<string>
    decreases v, 1
  {
    match v
    case Arr(items) => ItemOccurrences(items, 0, path)
    case Obj(fields) => FieldOccurrences(fields, path)
    case _ => []
  }

  function ItemOccurrences(items: seq<Json>, index: nat, path: string): seq<string>
    decreases items, 0
  {
    if items == [] then []
    else Occurrences(items[0], At(path, index)) + ItemOccurrences(items[1..], index + 1, path)
  }

  function FieldOccurrences(fields: seq<Field>, path: string): seq<string>
    decreases fields, 0
  {
    if fields == [] then []
    else
      var next := Extend(path, fields[0].key);
      (if Sensitive(fields[0].key) then [next] else [])
      + Occurrences(fields[0].value, next)
      + FieldOccurrences(fields[1..], path)
  }

  function First(paths: seq<string>): Option<string> {
    if paths == [] then None else Some(paths[0])
  }

  /** `if (result)`: a path counts only when it is not the empty string. */
  predicate TruthyPath(r: Option<string>) {
    r.Some? && r.value != ""
  }

  // ---- Occurrences are exactly the sensitive keys, and the first is never the empty path ----

  lemma {:induction false} OccurrencesIffSensitiveKey(v: Json, path: string)
    ensures Occurrences(v, path) == [] <==> Clean(v)
    ensures Occurrences(v, path) != [] ==> Occurrences(v, path)[0] != ""
    decreases v, 1
  {
    match v
    case Arr(items) => ItemOccurrencesIff(items, 0, path);
    case Obj(fields) => FieldOccurrencesIff(fields, path);
    case _ =>
  }

  lemma {:induction false} ItemOccurrencesIff(items: seq<Json>, index: nat, path: string)
    ensures ItemOccurrences(items, index, path) == []
       <==> forall key :: key in ItemKeys(items) ==> !Sensitive(key)
    ensures ItemOccurrences(items, index, path) != [] ==> ItemOccurrences(items, index, path)[0] != ""
    decreases items, 0
  {
    if items != [] {
      OccurrencesIffSensitiveKey(items[0], At(path, index));
      ItemOccurrencesIff(items[1..], index + 1, path);
    }
  }

  lemma {:induction false} FieldOccurrencesIff(fields: seq<Field>, path: string)
    ensures FieldOccurrences(fields, path) == []
       <==> forall key :: key in FieldKeys(fields) ==> !Sensitive(key)
    ensures FieldOccurrences(fields, path) != [] ==> FieldOccurrences(fields, path)[0] != ""
    decreases fields, 0
  {
    if fields != [] {
      assert Normalize("") !in SENSITIVE_DETAIL_KEYS;
      OccurrencesIffSensitiveKey(fields[0].value, Extend(path, fields[0].key));
      FieldOccurrencesIff(fields[1..], path);
    }
  }

  lemma {:induction false} ItemKeysInclude(items: seq<Json>, i: nat)
    requires i < |items|
    ensures KeysOf(items[i]) <= ItemKeys(items)
  {
    if i > 0 {
      ItemKeysInclude(items[1..], i - 1);
    }
  }

  /** Walking an array's item again, under another path, finds nothing the first walk
      has not found. */
  lemma SecondWalkFindsNothing(items: seq<Json>, path: string, i: nat, other: string)
    requires i < |items| && ItemOccurrences(items, 0, path) == []
    ensures Occurrences(items[i], other) == []
  {
    ItemOccurrencesIff(items, 0, path);
    ItemKeysInclude(items, i);
    OccurrencesIffSensitiveKey(items[i], other);
  }

  lemma TruthyFirst(v: Json, path: string)
    ensures TruthyPath(First(Occurrences(v, path))) <==> Occurrences(v, path) != []
  {
    OccurrencesIffSensitiveKey(v, path);
  }

  // ---- The scan itself ----

  /** `Object.entries(value)`: an array's entries are its items under decimal keys. */
  function Entries(v: Json): (r: seq<Field>)
    ensures forall i :: 0 <= i < |r| ==> r[i].value < v
  {
    match v
    case Arr(items) => seq(|items|, i requires 0 <= i < |items| => Field(Decimal(i), items[i]))
    case Obj(fields) => fields
    case _ => []
  }

  /** The source's walk: arrays are walked by index and then, being objects, once more
      by entry; a result counts only when it is truthy. */
  method FindSensitiveDetailPath(value: Json, path: string) returns (r: Option<string>)
    ensures r == First(Occurrences(value, path))
    ensures r.None? <==> Secretless(value)
    decreases value
  {
    hide Sensitive, TruthyPath, Secretless, Clean, At, Extend;
    ScanDecidesCleanliness(value, path);
    if value.Arr? {
      var index := 0;
      while index < |value.items|
        invariant 0 <= index <= |value.items|
        invariant Occurrences(value, path) == ItemOccurrences(value.items[index..], index, path)
      {
        var result := FindSensitiveDetailPath(value.items[index], At(path, index));
        TruthyFirst(value.items[index], At(path, index));
        assert value.items[index..][1..] == value.items[index + 1..];
        if TruthyPath(result) {
          return result;
        }
        index := index + 1;
      }
    }

    var entries := Entries(value);
    var i := 0;
    while i < |entries|
      invariant 0 <= i <= |entries|
      invariant value.Arr? ==> Occurrences(value, path) == []
      invariant value.Obj? ==> Occurrences(value, path) == FieldOccurrences(entries[i..], path)
    {
      var key, child := entries[i].key, entries[i].value;
      var next := Extend(path, key);
      if value.Arr? {
        IndexIsNotSensitive(i);
        SecondWalkFindsNothing(value.items, path, i, next);
      } else {
        assert entries[i..][1..] == entries[i + 1..];
      }
      if Sensitive(key) {
        return Some(next);
      }
      var result := FindSensitiveDetailPath(child, next);
      TruthyFirst(child, next);
      if TruthyPath(result) {
        return result;
      }
      i := i + 1;
    }
    return None;
  }

  /** What the scan decides: it reports nothing exactly when no object key at any depth
      normalises to a listed key. */
  lemma ScanDecidesCleanliness(v: Json, path: string)
    ensures First(Occurrences(v, path)).None? <==> Clean(v)
    ensures First(Occurrences(v, path)).None? <==> Secretless(v)
  {
    hide Secretless;
    OccurrencesIffSensitiveKey(v, path);
    CleanIffSecretless(v);
  }
}
