// apps/tenant-service/src/tenants/tenants.service.ts: tenant codes, that is, a base of four
// characters taken from the domain or the name and the first free sequence number.
module TenantCodes {
  import opened Common
  import opened Text

  const TENANT_CODE_BASE_LENGTH := 4
  const TENANT_CODE_SEQUENCE_MAX := 9999

  /** Library functions the code relies on: `fold` is NFKD normalisation without combining
      marks and in lower case, `hash` the upper-case hexadecimal SHA-256 of a trimmed text. */
  datatype Platform = Platform(fold: string -> string, hash: string -> string) {
    ghost predicate Valid() {
      forall s {:trigger hash(s)} :: |hash(s)| == 64 && AllCodeChars(hash(s))
    }
  }

  predicate IsCodeChar(c: char) {
    'A' <= c <= 'Z' || '0' <= c <= '9'
  }

  predicate AllCodeChars(s: string) {
    forall i :: 0 <= i < |s| ==> IsCodeChar(s[i])
  }

  // ---- Hangul syllables ----

  const HANGUL_SYLLABLE_START := 0xAC00
  const HANGUL_SYLLABLE_END := 0xD7A3

  const HANGUL_INITIAL_ROMANIZATION: seq<string> := [
    "G", "KK", "N", "D", "TT", "R", "M", "B", "PP", "S", "SS", "", "J", "JJ", "CH", "K", "T", "P", "H"]

  const HANGUL_MEDIAL_ROMANIZATION: seq<string> := [
    "A", "AE", "YA", "YAE", "EO", "E", "YEO", "YE", "O", "WA", "WAE", "OE", "YO", "U", "WO", "WE", "WI",
    "YU", "EU", "UI", "I"]

  const HANGUL_FINAL_ROMANIZATION: seq<string> := [
    "", "K", "K", "K", "N", "N", "N", "T", "L", "K", "M", "P", "L", "L", "P", "L", "M", "P", "P", "T", "T",
    "NG", "T", "T", "K", "T", "P", "T"]

  predicate IsHangul(c: char) {
    HANGUL_SYLLABLE_START <= c as int <= HANGUL_SYLLABLE_END
  }

  function InitialIndex(c: char): int { (c as int - HANGUL_SYLLABLE_START) / 588 }
  function MedialIndex(c: char): int { (c as int - HANGUL_SYLLABLE_START) % 588 / 28 }
  function FinalIndex(c: char): int { (c as int - HANGUL_SYLLABLE_START) % 28 }

  /** The code point composed of three indices. */
  function Compose(initial: int, medial: int, final: int): int {
    HANGUL_SYLLABLE_START + (initial * 21 + medial) * 28 + final
  }

  /** Taking a syllable apart and composing three indices are inverse to each other,
      between U+AC00..U+D7A3 and 19 x 21 x 28. */
  lemma HangulDecomposition(c: char)
    requires IsHangul(c)
    ensures 0 <= InitialIndex(c) < |HANGUL_INITIAL_ROMANIZATION| == 19
    ensures 0 <= MedialIndex(c) < |HANGUL_MEDIAL_ROMANIZATION| == 21
    ensures 0 <= FinalIndex(c) < |HANGUL_FINAL_ROMANIZATION| == 28
    ensures Compose(InitialIndex(c), MedialIndex(c), FinalIndex(c)) == c as int
  {
  }

  lemma HangulComposition(initial: int, medial: int, final: int)
    requires 0 <= initial < 19 && 0 <= medial < 21 && 0 <= final < 28
    ensures HANGUL_SYLLABLE_START <= Compose(initial, medial, final) <= HANGUL_SYLLABLE_END
    ensures var c := Compose(initial, medial, final) as char;
      IsHangul(c) && InitialIndex(c) == initial && MedialIndex(c) == medial && FinalIndex(c) == final
  {
  }

  function Romanize(c: char): string
    requires IsHangul(c)
  {
    HangulDecomposition(c);
    HANGUL_INITIAL_ROMANIZATION[InitialIndex(c)] + HANGUL_MEDIAL_ROMANIZATION[MedialIndex(c)]
    + HANGUL_FINAL_ROMANIZATION[FinalIndex(c)]
  }

  lemma InitialsAreCodeChars(i: int)
    requires 0 <= i < 19
    ensures AllCodeChars(HANGUL_INITIAL_ROMANIZATION[i])
  {
  }

  lemma MedialsAreCodeChars(i: int)
    requires 0 <= i < 21
    ensures HANGUL_MEDIAL_ROMANIZATION[i] != "" && AllCodeChars(HANGUL_MEDIAL_ROMANIZATION[i])
  {
  }

  lemma FinalsAreCodeChars(i: int)
    requires 0 <= i < 28
    ensures AllCodeChars(HANGUL_FINAL_ROMANIZATION[i])
  {
  }

  lemma RomanizationIsNonEmpty(c: char)
    requires IsHangul(c)
    ensures Romanize(c) != "" && AllCodeChars(Romanize(c))
  {
    HangulDecomposition(c);
    InitialsAreCodeChars(InitialIndex(c));
    MedialsAreCodeChars(MedialIndex(c));
    FinalsAreCodeChars(FinalIndex(c));
  }

  function FirstHangul(s: string): Option<string> {
    if s == "" then None
    else if IsHangul(s[0]) then Some(Romanize(s[0]))
    else FirstHangul(s[1..])
  }

  method RomanizeFirstHangulSyllable(value: string) returns (r: Option<string>)
    ensures r == FirstHangul(Trim(value))
  {
    hide Romanize;
    var text := Trim(value);
    var i := 0;
    while i < |text|
      invariant 0 <= i <= |text|
      invariant FirstHangul(text) == FirstHangul(text[i..])
    {
      if IsHangul(text[i]) {
        return Some(Romanize(text[i]));
      }
      assert text[i..][1..] == text[i + 1..];
      i := i + 1;
    }
    return None;
  }

  lemma {:induction false} FirstHangulIsCode(s: string)
    ensures FirstHangul(s).Some? ==> FirstHangul(s).value != "" && AllCodeChars(FirstHangul(s).value)
  {
    hide Romanize;
    if s != "" {
      if IsHangul(s[0]) {
        RomanizationIsNonEmpty(s[0]);
      } else {
        FirstHangulIsCode(s[1..]);
      }
    }
  }

  // ---- Slugs ----

  predicate IsSlugChar(c: char) {
    'a' <= c <= 'z' || '0' <= c <= '9'
  }

  function SkipRun(s: string): (r: string)
    ensures |r| <= |s|
  {
    if s != "" && !IsSlugChar(s[0]) then SkipRun(s[1..]) else s
  }

  /** `.replace(/[^a-z0-9]+/g, "-")` */
  function ReplaceRuns(s: string): string
    decreases |s|
  {
    if s == "" then ""
    else if IsSlugChar(s[0]) then [s[0]] + ReplaceRuns(s[1..])
    else "-" + ReplaceRuns(SkipRun(s[1..]))
  }

  function TrimDashesStart(s: string): string {
    if s != "" && s[0] == '-' then TrimDashesStart(s[1..]) else s
  }

  function TrimDashesEnd(s: string): string {
    if s != "" && s[|s| - 1] == '-' then TrimDashesEnd(s[..|s| - 1]) else s
  }

  /** `.replace(/-{2,}/g, "-")` */
  function CollapseDashes(s: string): string {
    if |s| < 2 then s
    else if s[0] == '-' && s[1] == '-' then CollapseDashes(s[1..])
    else [s[0]] + CollapseDashes(s[1..])
  }

  function UpperChar(c: char): char {
    if 'a' <= c <= 'z' then (c as int - 32) as char else c
  }

  function Upper(s: string): string {
    if s == "" then "" else [UpperChar(s[0])] + Upper(s[1..])
  }

  /** `toCodeSlug` on folded text. */
  function CodeSlug(folded: string): string {
    Upper(CollapseDashes(TrimDashesEnd(TrimDashesStart(ReplaceRuns(folded)))))
  }

  /** `.replace(/-/g, "")` */
  function RemoveDashes(s: string): string {
    if s == "" then ""
    else if s[0] == '-' then RemoveDashes(s[1..])
    else [s[0]] + RemoveDashes(s[1..])
  }

  /** The letters and digits of `s`, in order. */
  function SlugChars(s: string): string {
    if s == "" then ""
    else if IsSlugChar(s[0]) then [s[0]] + SlugChars(s[1..])
    else SlugChars(s[1..])
  }

  predicate SlugOrDash(s: string) {
    forall i :: 0 <= i < |s| ==> s[i] == '-' || IsSlugChar(s[i])
  }

  lemma {:induction false} ReplaceRunsKeepsChars(s: string)
    ensures SlugChars(ReplaceRuns(s)) == SlugChars(s) && SlugOrDash(ReplaceRuns(s))
    decreases |s|
  {
    if s != "" {
      if IsSlugChar(s[0]) {
        ReplaceRunsKeepsChars(s[1..]);
      } else {
        SkipRunKeepsChars(s[1..]);
        ReplaceRunsKeepsChars(SkipRun(s[1..]));
      }
    }
  }

  lemma {:induction false} SkipRunKeepsChars(s: string)
    ensures SlugChars(SkipRun(s)) == SlugChars(s)
  {
    if s != "" && !IsSlugChar(s[0]) {
      SkipRunKeepsChars(s[1..]);
    }
  }

  lemma {:induction false} TrimDashesKeepsChars(s: string)
    requires SlugOrDash(s)
    ensures SlugChars(TrimDashesStart(s)) == SlugChars(s) && SlugOrDash(TrimDashesStart(s))
  {
    if s != "" && s[0] == '-' {
      TrimDashesKeepsChars(s[1..]);
    }
  }

  lemma {:induction false} TrimDashesEndKeepsChars(s: string)
    requires SlugOrDash(s)
    ensures SlugChars(TrimDashesEnd(s)) == SlugChars(s) && SlugOrDash(TrimDashesEnd(s))
  {
    if s != "" && s[|s| - 1] == '-' {
      TrimDashesEndKeepsChars(s[..|s| - 1]);
      SlugCharsAppendDash(s[..|s| - 1]);
      assert s == s[..|s| - 1] + ['-'];
    }
  }

  lemma {:induction false} SlugCharsAppendDash(s: string)
    ensures SlugChars(s + ['-']) == SlugChars(s)
  {
    if s != "" {
      SlugCharsAppendDash(s[1..]);
      assert (s + ['-'])[1..] == s[1..] + ['-'];
    }
  }

  lemma {:induction false} CollapseDashesKeepsChars(s: string)
    requires SlugOrDash(s)
    ensures SlugChars(CollapseDashes(s)) == SlugChars(s) && SlugOrDash(CollapseDashes(s))
  {
    if |s| >= 2 {
      CollapseDashesKeepsChars(s[1..]);
    }
  }

  lemma {:induction false} RemoveDashesOfUpper(s: string)
    requires SlugOrDash(s)
    ensures RemoveDashes(Upper(s)) == Upper(SlugChars(s))
  {
    if s != "" {
      RemoveDashesOfUpper(s[1..]);
    }
  }

  /** Five passes of string replacement come down to the upper-cased letters and digits. */
  lemma SlugWithoutDashes(folded: string)
    ensures RemoveDashes(CodeSlug(folded)) == Upper(SlugChars(folded))
  {
    var a := ReplaceRuns(folded);
    ReplaceRunsKeepsChars(folded);
    TrimDashesKeepsChars(a);
    TrimDashesEndKeepsChars(TrimDashesStart(a));
    CollapseDashesKeepsChars(TrimDashesEnd(TrimDashesStart(a)));
    RemoveDashesOfUpper(CollapseDashes(TrimDashesEnd(TrimDashesStart(a))));
  }

  lemma {:induction false} UpperIsCode(s: string)
    ensures AllCodeChars(Upper(SlugChars(s)))
  {
    if s != "" {
      UpperIsCode(s[1..]);
    }
  }

  lemma {:induction false} SlugCharsOfConcat(a: string, b: string)
    ensures SlugChars(a + b) == SlugChars(a) + SlugChars(b)
  {
    if a == "" {
      assert a + b == b;
    } else {
      assert (a + b)[1..] == a[1..] + b;
      SlugCharsOfConcat(a[1..], b);
    }
  }

  lemma {:induction false} UpperOfConcat(a: string, b: string)
    ensures Upper(a + b) == Upper(a) + Upper(b)
  {
    if a == "" {
      assert a + b == b;
    } else {
      assert (a + b)[1..] == a[1..] + b;
      UpperOfConcat(a[1..], b);
    }
  }

  /** What one character of the folded text adds to the code: a letter its capital, a digit
      itself, everything else nothing. */
  function CodeOf(c: char): string {
    if 'a' <= c <= 'z' then [('A' as int + (c as int - 'a' as int)) as char]
    else if '0' <= c <= '9' then [c]
    else ""
  }

  /** Each character counts by itself, wherever it stands. */
  lemma CharactersCountOneByOne(a: string, c: char, b: string)
    ensures RemoveDashes(CodeSlug(a + [c] + b)) == RemoveDashes(CodeSlug(a)) + CodeOf(c) + RemoveDashes(CodeSlug(b))
    ensures RemoveDashes(CodeSlug("")) == ""
  {
    hide CodeSlug, RemoveDashes;
    SlugWithoutDashes(a + [c] + b);
    SlugWithoutDashes(a);
    SlugWithoutDashes(b);
    SlugWithoutDashes("");
    SlugCharsOfConcat(a + [c], b);
    SlugCharsOfConcat(a, [c]);
    UpperOfConcat(SlugChars(a) + SlugChars([c]), SlugChars(b));
    UpperOfConcat(SlugChars(a), SlugChars([c]));
    OneCharacter(c);
  }

  lemma OneCharacter(c: char)
    ensures Upper(SlugChars([c])) == CodeOf(c)
  {
    assert [c][1..] == "";
  }

  // ---- Bases ----

  function Prefix(s: string, n: nat): string {
    if n <= |s| then s[..n] else s
  }

  function SliceHash(hash: string): string {
    var start := if |hash| > 4 then (|hash| - 4) / 2 else 0;
    Prefix(hash[start..], TENANT_CODE_BASE_LENGTH)
  }

  function ToFixedCodeBase(p: Platform, value: string, hashSource: string): string {
    var normalized := RemoveDashes(CodeSlug(p.fold(value)));
    var hash := p.hash(Trim(hashSource));
    var romanized := FirstHangul(Trim(value));
    var source := if |normalized| > 0 then normalized else if romanized.Some? then romanized.value else SliceHash(hash);
    Prefix(source + hash, TENANT_CODE_BASE_LENGTH)
  }

  /** Every text whatsoever yields exactly four characters from A-Z and 0-9. */
  lemma CodeBaseIsFixed(p: Platform, value: string, hashSource: string)
    requires p.Valid()
    ensures var base := ToFixedCodeBase(p, value, hashSource); |base| == 4 && AllCodeChars(base)
  {
    hide CodeSlug, FirstHangul, IsCodeChar;
    SlugWithoutDashes(p.fold(value));
    UpperIsCode(p.fold(value));
    FirstHangulIsCode(Trim(value));
    var hash := p.hash(Trim(hashSource));
    assert |hash| == 64 && AllCodeChars(hash);
  }

  /** The characters of `source`, as far as they go, and then those of `filler`. */
  predicate Fills(base: string, source: string, filler: string) {
    && |base| == 4 && |source| + |filler| >= 4
    && forall i :: 0 <= i < 4 ==> base[i] == if i < |source| then source[i] else filler[i - |source|]
  }

  predicate FirstHangulAt(s: string, k: nat) {
    k < |s| && IsHangul(s[k]) && forall i :: 0 <= i < k ==> !IsHangul(s[i])
  }

  lemma {:induction false} FirstHangulIsFirst(s: string)
    ensures FirstHangul(s).None? <==> forall i :: 0 <= i < |s| ==> !IsHangul(s[i])
    ensures forall k: nat :: FirstHangulAt(s, k) ==> FirstHangul(s) == Some(Romanize(s[k]))
  {
    hide Romanize, IsHangul;
    if s != "" {
      FirstHangulIsFirst(s[1..]);
      forall k: nat | FirstHangulAt(s, k) ensures FirstHangul(s) == Some(Romanize(s[k])) {
        if k > 0 {
          assert !IsHangul(s[0]);
          assert FirstHangulAt(s[1..], k - 1);
        }
      }
      if FirstHangul(s).None? {
        forall i | 0 <= i < |s| ensures !IsHangul(s[i]) {
          assert i > 0 ==> s[1..][i - 1] == s[i];
        }
      } else if !IsHangul(s[0]) {
        var i :| 0 <= i < |s[1..]| && IsHangul(s[1..][i]);
        assert s[i + 1] == s[1..][i];
      }
    }
  }

  /** A base begins with the text's letters and digits, or without any with its first Hangul
      syllable in Latin letters; the hash fills it up. Without either it is the middle of the
      hash. */
  lemma CodeBaseMeaning(p: Platform, value: string, hashSource: string)
    requires p.Valid()
    ensures var base, hash := ToFixedCodeBase(p, value, hashSource), p.hash(Trim(hashSource));
      var letters, text := RemoveDashes(CodeSlug(p.fold(value))), Trim(value);
      && (letters != "" ==> Fills(base, letters, hash))
      && (letters == "" ==> forall k: nat :: FirstHangulAt(text, k) ==> Fills(base, Romanize(text[k]), hash))
      && (letters == "" && (forall i :: 0 <= i < |text| ==> !IsHangul(text[i])) ==> base == hash[30..34])
  {
    hide CodeSlug, RemoveDashes, FirstHangul, IsHangul, Romanize, IsCodeChar, Trim;
    FirstHangulIsFirst(Trim(value));
    assert |p.hash(Trim(hashSource))| == 64;
  }

  // ---- Domains ----

  const MULTI_LABEL_PUBLIC_SUFFIXES: set<string> := {
    "ac.kr", "co.jp", "co.kr", "co.uk", "com.au", "go.kr", "ne.kr", "or.kr", "pe.kr", "re.kr"}

  predicate IsListed(suffix: string) {
    suffix in MULTI_LABEL_PUBLIC_SUFFIXES
  }

  /** The non-empty labels of `domain.split(".")`, after the label `current` begun. */
  function Labels(domain: string, current: string): seq<string> {
    if domain == "" then (if current == "" then [] else [current])
    else if domain[0] == '.' then (if current == "" then [] else [current]) + Labels(domain[1..], "")
    else Labels(domain[1..], current + [domain[0]])
  }

  /** A suffix under which names are registered: one of the listed pairs, or one label. */
  predicate IsPublicSuffix(name: string, suffix: seq<string>) {
    || (|suffix| == 2 && IsListed(suffix[0] + "." + suffix[1]))
    || (|suffix| == 1 && !IsListed(name + "." + suffix[0]))
  }

  function SelectRegistrableDomainLabel(labels: seq<string>): (r: Option<string>)
    ensures r.None? <==> labels == []
    ensures r.Some? ==> r.value in labels
  {
    if labels == [] then None
    else if |labels| < 2 then Some(labels[0])
    else
      var lastTwo := labels[|labels| - 2] + "." + labels[|labels| - 1];
      var index := |labels| - (if IsListed(lastTwo) then 2 else 1) - 1;
      if index >= 0 then Some(labels[index]) else Some(labels[0])
  }

  /** The label before the public suffix, or the first one if the labels are no more than
      a suffix. */
  lemma SelectedLabel(labels: seq<string>)
    requires labels != []
    ensures forall k :: 0 <= k < |labels| && IsPublicSuffix(labels[k], labels[k + 1..]) ==>
      SelectRegistrableDomainLabel(labels) == Some(labels[k])
    ensures (forall k :: 0 <= k < |labels| ==> !IsPublicSuffix(labels[k], labels[k + 1..])) ==>
      SelectRegistrableDomainLabel(labels) == Some(labels[0])
  {
    hide IsListed;
    var n := |labels|;
    if n >= 2 {
      var index := n - (if IsListed(labels[n - 2] + "." + labels[n - 1]) then 2 else 1) - 1;
      assert index >= 0 ==> IsPublicSuffix(labels[index], labels[index + 1..]);
    }
  }

  function Join(labels: seq<string>): string {
    if labels == [] then "" else if |labels| == 1 then labels[0] else labels[0] + "." + Join(labels[1..])
  }

  predicate IsLabel(part: string) {
    part != "" && '.' !in part
  }

  lemma {:induction false} LabelsAfter(part: string, rest: string, current: string)
    requires '.' !in part && current + part != "" && (rest == "" || rest[0] == '.')
    ensures Labels(part + rest, current) == [current + part] + if rest == "" then [] else Labels(rest[1..], "")
    decreases |part|
  {
    if part == "" {
      assert part + rest == rest && current + part == current;
    } else {
      assert (part + rest)[0] == part[0] && (part + rest)[1..] == part[1..] + rest;
      assert current + [part[0]] + part[1..] == current + part;
      LabelsAfter(part[1..], rest, current + [part[0]]);
    }
  }

  /** Splitting at dots undoes joining with dots. */
  lemma {:induction false} LabelsOfJoin(labels: seq<string>)
    requires forall i :: 0 <= i < |labels| ==> IsLabel(labels[i])
    ensures Labels(Join(labels), "") == labels
    decreases |labels|
  {
    if |labels| == 1 {
      LabelsAfter(labels[0], "", "");
      assert labels[0] + "" == labels[0] && "" + labels[0] == labels[0];
    } else if |labels| > 1 {
      var rest := "." + Join(labels[1..]);
      LabelsAfter(labels[0], rest, "");
      assert labels[0] + rest == Join(labels) && rest[1..] == Join(labels[1..]) && "" + labels[0] == labels[0];
      LabelsOfJoin(labels[1..]);
      assert [labels[0]] + labels[1..] == labels;
    }
  }

  /** A domain is known by the label before its public suffix, whatever its subdomains. */
  lemma RegisteredNameIsSelected(subdomains: seq<string>, name: string, suffix: seq<string>)
    requires IsLabel(name) && IsPublicSuffix(name, suffix)
    requires forall i :: 0 <= i < |subdomains| ==> IsLabel(subdomains[i])
    requires forall i :: 0 <= i < |suffix| ==> IsLabel(suffix[i])
    ensures SelectRegistrableDomainLabel(Labels(Join(subdomains + [name] + suffix), "")) == Some(name)
  {
    hide IsLabel, IsPublicSuffix, SelectRegistrableDomainLabel, Labels, Join;
    var labels := subdomains + [name] + suffix;
    LabelsOfJoin(labels);
    SelectedLabel(labels);
    assert labels[|subdomains|] == name && labels[|subdomains| + 1..] == suffix;
  }

  function CodePrefix(p: Platform, name: string, domain: Option<string>): string {
    match domain
    case None => ToFixedCodeBase(p, name, name)
    case Some(host) =>
      var primary := SelectRegistrableDomainLabel(Labels(host, ""));
      ToFixedCodeBase(p, if primary.Some? then primary.value else host, host)
  }

  /** So the code of a tenant with a domain begins with the letters and digits of the label
      its domain is known by, whatever its name and subdomains. */
  lemma DomainDecidesThePrefix(p: Platform, tenant: string, subdomains: seq<string>, name: string, suffix: seq<string>)
    requires p.Valid() && IsLabel(name) && IsPublicSuffix(name, suffix)
    requires forall i :: 0 <= i < |subdomains| ==> IsLabel(subdomains[i])
    requires forall i :: 0 <= i < |suffix| ==> IsLabel(suffix[i])
    requires RemoveDashes(CodeSlug(p.fold(name))) != ""
    ensures var domain := Join(subdomains + [name] + suffix);
      Fills(CodePrefix(p, tenant, Some(domain)), RemoveDashes(CodeSlug(p.fold(name))), p.hash(Trim(domain)))
  {
    hide IsLabel, IsPublicSuffix, SelectRegistrableDomainLabel, Labels, Join, CodeSlug, RemoveDashes, ToFixedCodeBase;
    RegisteredNameIsSelected(subdomains, name, suffix);
    CodeBaseMeaning(p, name, Join(subdomains + [name] + suffix));
  }

  // ---- Sequence numbers ----

  function Digit(n: nat): char
    requires n < 10
  {
    ('0' as int + n) as char
  }

  /** `sequence.toString().padStart(4, "0")` for at most four digits. */
  function Pad4(n: nat): string
    requires n <= TENANT_CODE_SEQUENCE_MAX
  {
    [Digit(n / 1000), Digit(n / 100 % 10), Digit(n / 10 % 10), Digit(n % 10)]
  }

  /** Reading the four digits back. */
  function Unpad4(s: string): int
    requires |s| == 4
  {
    (((s[0] as int - 48) * 10 + (s[1] as int - 48)) * 10 + (s[2] as int - 48)) * 10 + (s[3] as int - 48)
  }

  lemma PadRoundTrip(n: nat)
    requires n <= TENANT_CODE_SEQUENCE_MAX
    ensures |Pad4(n)| == 4 && forall i :: 0 <= i < 4 ==> '0' <= Pad4(n)[i] <= '9'
    ensures Unpad4(Pad4(n)) == n
  {
    var tens, hundreds := n / 10, n / 100;
    assert n == tens * 10 + n % 10;
    assert tens == hundreds * 10 + tens % 10;
    assert hundreds == n / 1000 * 10 + hundreds % 10;
  }

  function Candidate(prefix: string, n: nat): string
    requires n <= TENANT_CODE_SEQUENCE_MAX
  {
    prefix + Pad4(n)
  }

  lemma CandidateIsInjective(prefix: string, m: nat, n: nat)
    requires m <= TENANT_CODE_SEQUENCE_MAX && n <= TENANT_CODE_SEQUENCE_MAX
    requires Candidate(prefix, m) == Candidate(prefix, n)
    ensures m == n
  {
    assert Candidate(prefix, m)[|prefix|..] == Pad4(m);
    assert Candidate(prefix, n)[|prefix|..] == Pad4(n);
    PadRoundTrip(m);
    PadRoundTrip(n);
  }

  /** The code of the smallest sequence number from `n` on that `codes` leaves free. */
  function FirstFree(prefix: string, codes: set<string>, n: nat): Option<string>
    requires n <= TENANT_CODE_SEQUENCE_MAX + 1
    decreases TENANT_CODE_SEQUENCE_MAX + 1 - n
  {
    if n > TENANT_CODE_SEQUENCE_MAX then None
    else if Candidate(prefix, n) !in codes then Some(Candidate(prefix, n))
    else FirstFree(prefix, codes, n + 1)
  }

  predicate IsFirstFree(prefix: string, codes: set<string>, from: nat, n: nat) {
    && from <= n <= TENANT_CODE_SEQUENCE_MAX
    && Candidate(prefix, n) !in codes
    && forall m :: from <= m < n ==> Candidate(prefix, m) in codes
  }

  /** A free code is found unless every number is taken, and then it is the first one. */
  lemma {:induction false} FirstFreeMeaning(prefix: string, codes: set<string>, from: nat)
    requires from <= TENANT_CODE_SEQUENCE_MAX + 1
    ensures match FirstFree(prefix, codes, from)
      case Some(code) =>
        code !in codes && exists n :: IsFirstFree(prefix, codes, from, n) && code == Candidate(prefix, n)
      case None => forall n :: from <= n <= TENANT_CODE_SEQUENCE_MAX ==> Candidate(prefix, n) in codes
    decreases TENANT_CODE_SEQUENCE_MAX + 1 - from
  {
    if from <= TENANT_CODE_SEQUENCE_MAX {
      if Candidate(prefix, from) !in codes {
        assert IsFirstFree(prefix, codes, from, from);
      } else {
        FirstFreeMeaning(prefix, codes, from + 1);
        if FirstFree(prefix, codes, from + 1).Some? {
          var n :| IsFirstFree(prefix, codes, from + 1, n)
            && FirstFree(prefix, codes, from + 1).value == Candidate(prefix, n);
          assert IsFirstFree(prefix, codes, from, n);
        }
      }
    }
  }

  /** The source's loop, which asks the database only for codes that share the prefix:
      enough, since every candidate does. */
  method GenerateUniqueTenantCode(codePrefix: string, codes: set<string>) returns (r: Option<string>)
    ensures r == FirstFree(codePrefix, codes, 1)
  {
    var existingCodes := set code | code in codes && codePrefix <= code;
    var sequence := 1;
    while sequence <= TENANT_CODE_SEQUENCE_MAX
      invariant 1 <= sequence <= TENANT_CODE_SEQUENCE_MAX + 1
      invariant FirstFree(codePrefix, codes, 1) == FirstFree(codePrefix, codes, sequence)
    {
      var candidate := codePrefix + Pad4(sequence);
      if candidate !in existingCodes {
        return Some(candidate);
      }
      sequence := sequence + 1;
    }
    return None;
  }
}
