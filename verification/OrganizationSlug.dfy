/** Organization slugs: `slugify` and the collision loop of `create` in
    apps/api/src/organizations/organizations.service.ts, against the slug pattern of
    packages/validation/src/organization.schemas.ts. */
module OrganizationSlug {
  predicate Alnum(c: char) {
    'a' <= c <= 'z' || '0' <= c <= '9'
  }

  // ----- the pattern ^[a-z0-9]+(?:-[a-z0-9]+)*$

  predicate Word(s: string) {
    s != [] && forall i :: 0 <= i < |s| ==> Alnum(s[i])
  }

  /** One word, or a word, a hyphen and the rest of a slug. */
  ghost predicate MatchesSlugPattern(s: string) {
    Word(s) || exists k :: 0 <= k < |s| && s[k] == '-' && Word(s[..k]) && MatchesSlugPattern(s[k + 1..])
  }

  // ----- slugify

  predicate Whitespace(c: char) {
    c == ' ' || '\t' <= c <= '\r' || c as int in {0xA0, 0x1680, 0x2028, 0x2029, 0x202F, 0x205F, 0x3000, 0xFEFF}
    || 0x2000 <= c as int <= 0x200A
  }

  function TrimStart(s: string, drop: char -> bool): string {
    if s != [] && drop(s[0]) then TrimStart(s[1..], drop) else s
  }

  function TrimEnd(s: string, drop: char -> bool): string {
    if s != [] && drop(s[|s| - 1]) then TrimEnd(s[..|s| - 1], drop) else s
  }

  /** Each maximal run of other characters becomes one hyphen. */
  function HyphenateRuns(s: string): string {
    if s == [] then []
    else
      var init, c := HyphenateRuns(s[..|s| - 1]), s[|s| - 1];
      if Alnum(c) then init + [c]
      else if |s| > 1 && !Alnum(s[|s| - 2]) then init
      else init + ['-']
  }

  /** `lower` is the language's own case folding of a whole string. */
  function Slugify(name: string, lower: string -> string): string {
    var trimmed := TrimEnd(TrimStart(lower(name), c => Whitespace(c)), c => Whitespace(c));
    var slug := TrimEnd(TrimStart(HyphenateRuns(trimmed), c => c == '-'), c => c == '-');
    if slug == [] then "org" else slug
  }

  // ----- why the result is a slug

  /** Alphanumeric characters and hyphens, no two hyphens in a row. */
  predicate Spaced(s: string) {
    && (forall i :: 0 <= i < |s| ==> Alnum(s[i]) || s[i] == '-')
    && (forall i :: 0 <= i < |s| - 1 ==> s[i] != '-' || s[i + 1] != '-')
  }

  predicate Framed(s: string) {
    s != [] && s[0] != '-' && s[|s| - 1] != '-'
  }

  lemma {:induction false} RunsAreSpaced(s: string)
    ensures Spaced(HyphenateRuns(s))
    ensures s != [] ==> HyphenateRuns(s) != []
    ensures s != [] ==> (HyphenateRuns(s)[|HyphenateRuns(s)| - 1] == '-' <==> !Alnum(s[|s| - 1]))
  {
    if s != [] {
      RunsAreSpaced(s[..|s| - 1]);
    }
  }

  lemma {:induction false} TrimmedStart(s: string)
    requires Spaced(s)
    ensures var r := TrimStart(s, c => c == '-'); Spaced(r) && (r != [] ==> r[0] != '-')
  {
    if s != [] && s[0] == '-' {
      TrimmedStart(s[1..]);
    }
  }

  lemma {:induction false} TrimmedEnd(s: string)
    requires Spaced(s) && (s != [] ==> s[0] != '-')
    ensures var r := TrimEnd(s, c => c == '-'); Spaced(r) && (r != [] ==> Framed(r))
  {
    if s != [] && s[|s| - 1] == '-' {
      TrimmedEnd(s[..|s| - 1]);
    }
  }

  function FirstHyphen(s: string): (k: nat)
    ensures k <= |s| && (forall i :: 0 <= i < k ==> s[i] != '-') && (k < |s| ==> s[k] == '-')
  {
    if s == [] || s[0] == '-' then 0 else 1 + FirstHyphen(s[1..])
  }

  lemma RestIsSpaced(s: string, k: nat)
    requires Spaced(s) && Framed(s) && k < |s| && s[k] == '-' && forall i :: 0 <= i < k ==> s[i] != '-'
    ensures Word(s[..k]) && Spaced(s[k + 1..]) && Framed(s[k + 1..])
  {
    var rest := s[k + 1..];
    assert s[k] != '-' || s[k + 1] != '-';
    assert forall i :: 0 <= i < |rest| ==> rest[i] == s[k + 1 + i];
  }

  lemma {:induction false} SpacedMatches(s: string)
    requires Spaced(s) && Framed(s)
    ensures MatchesSlugPattern(s)
    decreases |s|
  {
    var k := FirstHyphen(s);
    if k == |s| {
      assert Word(s);
    } else {
      RestIsSpaced(s, k);
      SpacedMatches(s[k + 1..]);
    }
  }

  lemma JoinedWords(s: string, k: nat)
    requires k < |s| && s[k] == '-' && Word(s[..k]) && Spaced(s[k + 1..]) && Framed(s[k + 1..])
    ensures Spaced(s) && Framed(s)
  {
    var word, rest := s[..k], s[k + 1..];
    assert forall i :: 0 <= i < |s| ==> s[i] == if i < k then word[i] else if i == k then '-' else rest[i - k - 1];
  }

  lemma {:induction false} MatchesSpaced(s: string)
    requires MatchesSlugPattern(s)
    ensures Spaced(s) && Framed(s)
    decreases |s|
  {
    if !Word(s) {
      var k :| 0 <= k < |s| && s[k] == '-' && Word(s[..k]) && MatchesSlugPattern(s[k + 1..]);
      MatchesSpaced(s[k + 1..]);
      JoinedWords(s, k);
    }
  }

  /** The pattern accepts exactly the spaced and framed strings. */
  lemma PatternMeans(s: string)
    ensures MatchesSlugPattern(s) <==> Spaced(s) && Framed(s)
  {
    if Spaced(s) && Framed(s) {
      SpacedMatches(s);
    }
    if MatchesSlugPattern(s) {
      MatchesSpaced(s);
    }
  }

  /** Every name whatever yields a slug the pattern accepts. */
  lemma SlugifyYieldsASlug(name: string, lower: string -> string)
    ensures MatchesSlugPattern(Slugify(name, lower))
  {
    var trimmed := TrimEnd(TrimStart(lower(name), c => Whitespace(c)), c => Whitespace(c));
    RunsAreSpaced(trimmed);
    TrimmedStart(HyphenateRuns(trimmed));
    TrimmedEnd(TrimStart(HyphenateRuns(trimmed), c => c == '-'));
    PatternMeans(Slugify(name, lower));
  }

  lemma {:induction false} SpacedIsKept(s: string)
    requires Spaced(s)
    ensures HyphenateRuns(s) == s
  {
    if s != [] {
      var init := s[..|s| - 1];
      SpacedIsKept(init);
      assert s == init + [s[|s| - 1]];
      if |s| > 1 {
        assert s[|s| - 2] != '-' || s[|s| - 2 + 1] != '-';
      }
    }
  }

  /** A slug is its own slug, so slugifying twice is slugifying once, for any case
      folding that leaves lower-case letters, digits and hyphens alone. */
  lemma SlugifyIsIdempotent(name: string, lower: string -> string)
    requires forall s: string :: Spaced(s) ==> lower(s) == s
    ensures Slugify(Slugify(name, lower), lower) == Slugify(name, lower)
  {
    var s := Slugify(name, lower);
    SlugifyYieldsASlug(name, lower);
    PatternMeans(s);
    assert lower(s) == s;
    SpacedIsKept(s);
  }

  // ----- what the slug says

  predicate EndsInWord(s: string) {
    s != [] && Alnum(s[|s| - 1])
  }

  function Extend(words: seq<string>, joined: bool, c: char): seq<string> {
    if !Alnum(c) then words
    else if joined && words != [] then words[|words| - 1 := words[|words| - 1] + [c]]
    else words + [[c]]
  }

  /** The maximal runs of lower-case letters and digits. */
  function Words(s: string): seq<string> {
    if s == [] then [] else Extend(Words(s[..|s| - 1]), EndsInWord(s[..|s| - 1]), s[|s| - 1])
  }

  lemma WordsSnoc(s: string, c: char)
    ensures Words(s + [c]) == Extend(Words(s), EndsInWord(s), c)
  {
    assert (s + [c])[..|s|] == s;
  }

  lemma {:induction false} EveryLetterIsInAWord(s: string)
    ensures Words(s) == [] <==> forall i :: 0 <= i < |s| ==> !Alnum(s[i])
  {
    if s != [] {
      EveryLetterIsInAWord(s[..|s| - 1]);
    }
  }

  lemma {:induction false} RunsKeepWords(s: string)
    ensures Words(HyphenateRuns(s)) == Words(s)
  {
    if s != [] {
      var init := s[..|s| - 1];
      RunsKeepWords(init);
      RunsAreSpaced(init);
      WordsSnoc(HyphenateRuns(init), s[|s| - 1]);
      WordsSnoc(HyphenateRuns(init), '-');
    }
  }

  lemma {:induction false} TrimEndKeepsWords(s: string, drop: char -> bool)
    requires forall c :: drop(c) ==> !Alnum(c)
    ensures Words(TrimEnd(s, drop)) == Words(s)
  {
    if s != [] && drop(s[|s| - 1]) {
      TrimEndKeepsWords(s[..|s| - 1], drop);
    }
  }

  lemma {:induction false} DropFirstKeepsWords(s: string)
    requires s != [] && !Alnum(s[0])
    ensures Words(s[1..]) == Words(s)
  {
    if |s| > 1 {
      var init := s[..|s| - 1];
      DropFirstKeepsWords(init);
      assert s[1..][..|s| - 2] == init[1..];
      EveryLetterIsInAWord(init);
    }
  }

  lemma {:induction false} TrimStartKeepsWords(s: string, drop: char -> bool)
    requires forall c :: drop(c) ==> !Alnum(c)
    ensures Words(TrimStart(s, drop)) == Words(s)
  {
    if s != [] && drop(s[0]) {
      DropFirstKeepsWords(s);
      TrimStartKeepsWords(s[1..], drop);
    }
  }

  /** The slug spells exactly the words of the folded name, in order; a name without
      any becomes "org". */
  lemma SlugSpellsTheName(name: string, lower: string -> string)
    ensures Words(lower(name)) != [] ==> Words(Slugify(name, lower)) == Words(lower(name))
    ensures Words(lower(name)) == [] ==> Slugify(name, lower) == "org"
  {
    var start := TrimStart(lower(name), c => Whitespace(c));
    var trimmed := TrimEnd(start, c => Whitespace(c));
    var runs := HyphenateRuns(trimmed);
    TrimStartKeepsWords(lower(name), c => Whitespace(c));
    TrimEndKeepsWords(start, c => Whitespace(c));
    RunsKeepWords(trimmed);
    TrimStartKeepsWords(runs, c => c == '-');
    TrimEndKeepsWords(TrimStart(runs, c => c == '-'), c => c == '-');
    RunsAreSpaced(trimmed);
    TrimmedStart(runs);
    TrimmedEnd(TrimStart(runs, c => c == '-'));
    EveryLetterIsInAWord(TrimEnd(TrimStart(runs, c => c == '-'), c => c == '-'));
  }

  // ----- the collision suffix

  predicate Hex(s: string) {
    |s| == 6 && forall i :: 0 <= i < 6 ==> '0' <= s[i] <= '9' || 'a' <= s[i] <= 'f'
  }

  lemma SuffixKeepsPattern(slug: string, hex: string)
    requires MatchesSlugPattern(slug) && Hex(hex)
    ensures MatchesSlugPattern(slug + "-" + hex)
  {
    var s := slug + "-" + hex;
    PatternMeans(slug);
    PatternMeans(s);
    forall i | 0 <= i < |s| ensures s[i] == if i < |slug| then slug[i] else if i == |slug| then '-' else hex[i - |slug| - 1] {
    }
  }

  datatype Choice = Free(slug: string) | NoFreeSlug

  /** The loop of `create`: `draws` are the random suffixes in the order they are drawn.
      At most six lookups, the base slug and five draws; then it gives up. */
  method ChooseSlug(name: string, lower: string -> string, taken: set<string>, draws: seq<string>) returns (r: Choice, lookups: nat)
    requires |draws| >= 6 && forall i :: 0 <= i < |draws| ==> Hex(draws[i])
    ensures lookups <= 6
    ensures r.Free? ==> r.slug !in taken && MatchesSlugPattern(r.slug)
    ensures var base := Slugify(name, lower);
      && (r == Free(base) <==> base !in taken)
      && (r.NoFreeSlug? <==> base in taken && forall i :: 0 <= i < 5 ==> base + "-" + draws[i] in taken)
      && (r.Free? && base in taken ==>
            exists i :: 0 <= i < 5 && r.slug == base + "-" + draws[i] && forall j :: 0 <= j < i ==> base + "-" + draws[j] in taken)
  {
    var base := Slugify(name, lower);
    SlugifyYieldsASlug(name, lower);
    var slug, suffix := base, 0;
    lookups := 1;
    while slug in taken
      invariant 0 <= suffix <= 5 && lookups == suffix + 1
      invariant slug == if suffix == 0 then base else base + "-" + draws[suffix - 1]
      invariant suffix > 0 ==> base in taken
      invariant forall j :: 0 <= j < suffix - 1 ==> base + "-" + draws[j] in taken
      invariant MatchesSlugPattern(slug)
      decreases 6 - suffix
    {
      suffix := suffix + 1;
      SuffixKeepsPattern(base, draws[suffix - 1]);
      slug := base + "-" + draws[suffix - 1];
      if suffix > 5 {
        return NoFreeSlug, lookups;
      }
      lookups := lookups + 1;
    }
    return Free(slug), lookups;
  }
}
