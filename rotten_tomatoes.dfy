/**
 * The Rotten Tomatoes provider (src/providers/rottentomatoesProvider.js): its
 * own underscore slug and URL, the score validation of the JSON-LD and DOM
 * readers, the JSON-LD-then-DOM fallback and the first-seen-wins
 * de-duplication of the scraped records.
 */
module RottenTomatoes {
  import opened Wrappers
  import opened JsString
  import opened Records

  const ProviderName := "Rotten Tomatoes"

  /**
   * The class `['â€™]` removed by the third rewrite: the apostrophe and the three
   * characters of a right single quote mis-decoded as Windows-1252.
   */
  predicate IsApostrophe(c: char) { c == '\'' || c == '\U{E2}' || c == '\U{20AC}' || c == '\U{2122}' }

  predicate NotApostrophe(c: char) { !IsApostrophe(c) }

  predicate IsUnderscore(c: char) { c == '_' }

  predicate NotUnderscore(c: char) { c != '_' }

  /** `[a-z0-9_]` */
  predicate IsRtSlugChar(c: char) { IsLowerAlnum(c) || c == '_' }

  /** `[:_]` becomes a space. */
  function SpaceFor(c: char): char { if c == ':' || c == '_' then ' ' else c }

  /** The rewrite steps of the chain, in order. */
  function Spaced(lowered: string): string { MapChars(lowered, SpaceFor) }

  function Unquoted(spaced: string): string { Filter(spaced, NotApostrophe) }

  function Underscored(unquoted: string): string { ReplaceRuns(unquoted, IsSpace, '_') }

  function Kept(underscored: string): string { Filter(underscored, IsRtSlugChar) }

  function Collapsed(kept: string): string { ReplaceRuns(kept, IsUnderscore, '_') }

  /** `replace(/^_|_$/g, '')`: one underscore at the start and one at the end are removed. */
  function StripEdges(collapsed: string): string
  {
    var a := if collapsed != [] && collapsed[0] == '_' then collapsed[1..] else collapsed;
    if a != [] && a[|a| - 1] == '_' then a[..|a| - 1] else a
  }

  /**
   * `formatRottenTomatoesSlug`: lower-case, `[:_]` to spaces, apostrophes
   * dropped, white-space runs to '_', drop what is not `[a-z0-9_]`, collapse
   * underscore runs, strip an edge underscore.
   */
  function FormatRottenTomatoesSlug(title: string): string
  {
    if title == [] then []
    else StripEdges(Collapsed(Kept(Underscored(Unquoted(Spaced(Lower(title)))))))
  }

  /** Lower-case letters, digits and single underscores between them. */
  predicate IsRtSlug(s: string) {
    && (forall i :: 0 <= i < |s| ==> IsRtSlugChar(s[i]))
    && NoDouble(s, '_')
    && (s == [] || (s[0] != '_' && s[|s| - 1] != '_'))
  }

  /** Every slug has that shape. */
  lemma RtSlugShape(title: string)
    ensures IsRtSlug(FormatRottenTomatoesSlug(title))
  {
    if title != [] {
      var underscored := Underscored(Unquoted(Spaced(Lower(title))));
      FilterChars(underscored, IsRtSlugChar);
      CollapsedShape(Kept(underscored));
      StripEdgesShape(Collapsed(Kept(underscored)));
    }
  }

  lemma CollapsedShape(kept: string)
    requires forall c :: c in kept ==> IsRtSlugChar(c)
    ensures forall c :: c in Collapsed(kept) ==> IsRtSlugChar(c)
    ensures NoDouble(Collapsed(kept), '_')
  {
    ReplaceRunsChars(kept, IsUnderscore, '_');
    ReplaceRunsNoDouble(kept, IsUnderscore, '_');
  }

  lemma StripEdgesShape(collapsed: string)
    requires forall c :: c in collapsed ==> IsRtSlugChar(c)
    requires NoDouble(collapsed, '_')
    ensures IsRtSlug(StripEdges(collapsed))
  {
    var lo := if collapsed != [] && collapsed[0] == '_' then 1 else 0;
    var a := collapsed[lo..];
    var hi := if a != [] && a[|a| - 1] == '_' then |collapsed| - 1 else |collapsed|;
    var t := StripEdges(collapsed);
    assert t == collapsed[lo..hi];
    forall i | 0 <= i < |t|
      ensures IsRtSlugChar(t[i])
    {
      assert t[i] == collapsed[lo + i];
      assert collapsed[lo + i] in collapsed;
    }
    forall i | 0 <= i < |t| - 1
      ensures !(t[i] == '_' && t[i + 1] == '_')
    {
      assert t[i] == collapsed[lo + i] && t[i + 1] == collapsed[lo + i + 1];
    }
    if t != [] {
      assert t[0] != '_' by {
        assert t[0] == collapsed[lo];
        if lo == 1 { assert !(collapsed[0] == '_' && collapsed[1] == '_'); }
      }
      assert t[|t| - 1] != '_' by {
        assert t[|t| - 1] == collapsed[hi - 1];
        if hi < |collapsed| { assert collapsed[hi] == '_'; }
      }
    }
  }

  /** Formatting a slug again changes nothing. */
  lemma RtSlugIdempotent(title: string)
    ensures FormatRottenTomatoesSlug(FormatRottenTomatoesSlug(title)) == FormatRottenTomatoesSlug(title)
  {
    RtSlugShape(title);
    RtSlugIsFixpoint(FormatRottenTomatoesSlug(title));
  }

  /** Every rewrite of the chain leaves a slug as it is, except that its underscores pass through spaces. */
  lemma RtSlugIsFixpoint(s: string)
    requires IsRtSlug(s)
    ensures FormatRottenTomatoesSlug(s) == s
  {
    if s != [] {
      FixedLower(s);
      FixedUnquoted(s);
      UnderscoredSpaced(s);
      FixedKept(s);
      FixedCollapsed(s);
    }
  }

  lemma FixedLower(s: string)
    requires IsRtSlug(s)
    ensures Lower(s) == s
  {
    LowerUnchanged(s);
  }

  lemma FixedUnquoted(s: string)
    requires IsRtSlug(s)
    ensures Unquoted(Spaced(s)) == Spaced(s)
  {
    FilterAll(Spaced(s), NotApostrophe);
  }

  /** On a slug, turning underscores into spaces and spaces back into underscores is the identity. */
  lemma {:induction false} UnderscoredSpaced(s: string)
    requires forall i :: 0 <= i < |s| ==> IsRtSlugChar(s[i])
    requires NoDouble(s, '_')
    ensures Underscored(Spaced(s)) == s
  {
    if s != [] {
      var rest := s[1..];
      var tail := Spaced(rest);
      assert Spaced(s) == [SpaceFor(s[0])] + tail;
      assert forall i :: 0 <= i < |rest| ==> rest[i] == s[i + 1];
      UnderscoredSpaced(rest);
      if |s| > 1 {
        assert tail[0] == SpaceFor(s[1]);
        assert s[0] == '_' ==> s[1] != '_';
      }
      UnderscoreStep(s[0], tail);
      assert s == [s[0]] + rest;
    }
  }

  /** One slug character and what follows it: an underscore passes through a space and back. */
  lemma UnderscoreStep(c: char, tail: string)
    requires IsRtSlugChar(c)
    requires c == '_' ==> tail == [] || !IsSpace(tail[0])
    ensures Underscored([SpaceFor(c)] + tail) == [c] + Underscored(tail)
  {
    var m := [SpaceFor(c)] + tail;
    assert m[1..] == tail;
    if c == '_' {
      assert DropWhile(m[1..], IsSpace) == tail;
      assert DropWhile(m, IsSpace) == tail;
    } else {
      assert !IsSpace(m[0]);
    }
  }

  lemma FixedKept(s: string)
    requires IsRtSlug(s)
    ensures Kept(s) == s
  {
    FilterAll(s, IsRtSlugChar);
  }

  lemma FixedCollapsed(s: string)
    requires IsRtSlug(s)
    ensures Collapsed(s) == s
  {
    ReplaceRunsFixpoint(s, IsUnderscore, '_');
  }

  /**
   * Deleting the underscores from a slug gives back the title's ASCII letters,
   * lower-cased, and its digits, in their original order.
   */
  lemma RtSlugKeepsLettersAndDigits(title: string)
    ensures Filter(FormatRottenTomatoesSlug(title), NotUnderscore) == Lower(Filter(title, IsAsciiAlnum))
  {
    RtSlugShape(title);
    DropUnderscoresOfSlug(FormatRottenTomatoesSlug(title));
    FilterLower(title);
    if title == [] {
      assert Filter(title, IsAsciiAlnum) == [];
    } else {
      RtSlugKeepsAlnumOfLowered(title);
    }
  }

  lemma {:induction false} DropUnderscoresOfSlug(s: string)
    requires forall i :: 0 <= i < |s| ==> IsRtSlugChar(s[i])
    ensures Filter(s, NotUnderscore) == Filter(s, IsLowerAlnum)
  {
    if s != [] {
      DropUnderscoresOfSlug(s[1..]);
    }
  }

  /** Each rewrite of the chain keeps the lower-case letters and digits. */
  lemma RtSlugKeepsAlnumOfLowered(title: string)
    requires title != []
    ensures Filter(FormatRottenTomatoesSlug(title), IsLowerAlnum) == Filter(Lower(title), IsLowerAlnum)
  {
    var spaced := Spaced(Lower(title));
    var kept := Kept(Underscored(Unquoted(spaced)));
    StripEdgesKeepsAlnum(Collapsed(kept));
    CollapsedKeepsAlnum(kept);
    KeptKeepsAlnum(Underscored(Unquoted(spaced)));
    UnderscoredKeepsAlnum(Unquoted(spaced));
    UnquotedKeepsAlnum(spaced);
    SpacedKeepsAlnum(Lower(title));
  }

  lemma {:induction false} SpacedKeepsAlnum(lowered: string)
    ensures Filter(Spaced(lowered), IsLowerAlnum) == Filter(lowered, IsLowerAlnum)
  {
    if lowered != [] {
      assert Spaced(lowered)[1..] == Spaced(lowered[1..]);
      SpacedKeepsAlnum(lowered[1..]);
    }
  }

  lemma UnquotedKeepsAlnum(spaced: string)
    ensures Filter(Unquoted(spaced), IsLowerAlnum) == Filter(spaced, IsLowerAlnum)
  {
    FilterFilter(spaced, NotApostrophe, IsLowerAlnum);
  }

  lemma UnderscoredKeepsAlnum(unquoted: string)
    ensures Filter(Underscored(unquoted), IsLowerAlnum) == Filter(unquoted, IsLowerAlnum)
  {
    FilterReplaceRuns(unquoted, IsSpace, '_', IsLowerAlnum);
  }

  lemma KeptKeepsAlnum(underscored: string)
    ensures Filter(Kept(underscored), IsLowerAlnum) == Filter(underscored, IsLowerAlnum)
  {
    FilterFilter(underscored, IsRtSlugChar, IsLowerAlnum);
  }

  lemma CollapsedKeepsAlnum(kept: string)
    ensures Filter(Collapsed(kept), IsLowerAlnum) == Filter(kept, IsLowerAlnum)
  {
    FilterReplaceRuns(kept, IsUnderscore, '_', IsLowerAlnum);
  }

  lemma StripEdgesKeepsAlnum(collapsed: string)
    ensures Filter(StripEdges(collapsed), IsLowerAlnum) == Filter(collapsed, IsLowerAlnum)
  {
    var a := collapsed;
    if collapsed != [] && collapsed[0] == '_' {
      a := collapsed[1..];
      DropFirstUnderscore(collapsed);
    }
    assert Filter(a, IsLowerAlnum) == Filter(collapsed, IsLowerAlnum);
    if a != [] && a[|a| - 1] == '_' {
      DropLastUnderscore(a);
      assert StripEdges(collapsed) == a[..|a| - 1];
    } else {
      assert StripEdges(collapsed) == a;
    }
  }

  lemma DropFirstUnderscore(a: string)
    requires a != [] && a[0] == '_'
    ensures Filter(a[1..], IsLowerAlnum) == Filter(a, IsLowerAlnum)
  {
  }

  lemma DropLastUnderscore(a: string)
    requires a != [] && a[|a| - 1] == '_'
    ensures Filter(a[..|a| - 1], IsLowerAlnum) == Filter(a, IsLowerAlnum)
  {
    FilterConcat(a[..|a| - 1], [a[|a| - 1]], IsLowerAlnum);
    assert a[..|a| - 1] + [a[|a| - 1]] == a;
  }

  /** An apostrophe vanishes without leaving a separator: "Schindler's List" and "Schindlers List" share a slug. */
  lemma ApostropheVanishes(a: string, c: char, b: string)
    requires IsApostrophe(c)
    ensures FormatRottenTomatoesSlug(a + [c] + b) == FormatRottenTomatoesSlug(a + b)
  {
    LowerAround(a, c, b);
    SpacedAround(Lower(a), c, Lower(b));
    UnquotedAround(Spaced(Lower(a)), c, Spaced(Lower(b)));
    if a + b == [] {
      EmptyChain();
    }
  }

  lemma SpacedAround(a: string, c: char, b: string)
    ensures Spaced(a + [c] + b) == Spaced(a) + [SpaceFor(c)] + Spaced(b)
    ensures Spaced(a + b) == Spaced(a) + Spaced(b)
  {
    MapCharsConcat(a + [c], b, SpaceFor);
    MapCharsConcat(a, [c], SpaceFor);
    MapCharsConcat(a, b, SpaceFor);
  }

  lemma UnquotedAround(a: string, c: char, b: string)
    requires IsApostrophe(c)
    ensures Unquoted(a + [c] + b) == Unquoted(a + b)
  {
    FilterConcat(a + [c], b, NotApostrophe);
    FilterConcat(a, [c], NotApostrophe);
    FilterConcat(a, b, NotApostrophe);
  }

  /** The steps after lower-casing map the empty string to itself. */
  lemma EmptyChain()
    ensures StripEdges(Collapsed(Kept(Underscored(Unquoted([]))))) == []
  {
  }

  /** A colon or an underscore separates words exactly as a space does: "Star Wars: Andor" gives "star_wars_andor". */
  lemma ColonActsAsSpace(a: string, c: char, b: string)
    requires c == ':' || c == '_'
    ensures FormatRottenTomatoesSlug(a + [c] + b) == FormatRottenTomatoesSlug(a + " " + b)
  {
    LowerAround(a, c, b);
    LowerAround(a, ' ', b);
    SpacedAround(Lower(a), c, Lower(b));
    SpacedAround(Lower(a), ' ', Lower(b));
  }
  /** `getRottenTomatoesUrl`: `None` when the title or the base URL is empty, or the slug is empty. */
  function GetRottenTomatoesUrl(baseUrl: string, title: string, kind: string): (url: Option<string>)
    ensures url.Some? <==> title != [] && baseUrl != [] && FormatRottenTomatoesSlug(title) != []
    ensures url.Some? ==> url.value == baseUrl + "/" + MediaPath(kind) + "/" + FormatRottenTomatoesSlug(title)
  {
    if title == [] || baseUrl == [] then None
    else
      var slug := FormatRottenTomatoesSlug(title);
      if slug == [] then None else Some(baseUrl + "/" + MediaPath(kind) + "/" + slug)
  }

  /** Series live under `tv`, everything else under `m`. */
  function MediaPath(kind: string): string { if kind == "series" then "tv" else "m" }

  /** A parsed score is kept only when it is a number in 0..100. */
  function InRange(parsed: Option<int>): (score: Option<nat>)
    ensures score.Some? ==> score.value <= 100
    ensures parsed.Some? && 0 <= parsed.value <= 100 ==> score == Some(parsed.value as nat)
    ensures parsed.None? || parsed.value < 0 || parsed.value > 100 ==> score.None?
  {
    if parsed.Some? && 0 <= parsed.value <= 100 then Some(parsed.value as nat) else None
  }

  /** The DOM reader: the trimmed text of the score element, through `parseInt`. */
  function DomScore(text: string): (score: Option<nat>)
    ensures score.Some? ==> score.value <= 100
  {
    InRange(ParseInt(Trim(text)))
  }

  /**
   * A JSON value handed to `parsePercentage`: a string, or any other value,
   * given by `Math.round(Number(v) * 100)` (`None` for NaN) and by whether it
   * is truthy.
   */
  datatype JsonScore = Text(text: string) | NonText(percent: Option<int>, truthy: bool)

  /**
   * One parsed JSON-LD block: `aggregateRating.ratingValue` when
   * `aggregateRating` is truthy, `audience.audienceScore` when `audience` is truthy.
   */
  datatype JsonLd = JsonLd(aggregate: Option<JsonScore>, audience: Option<JsonScore>)

  /** `parsePercentage`: a string loses its first '%' and goes through `parseInt`. */
  function ParsePercentage(v: JsonScore): Option<int>
  {
    match v
    case Text(t) => ParseInt(RemoveFirst(t, '%'))
    case NonText(percent, _) => percent
  }

  /** The truthiness of a JSON value. */
  predicate JsonTruthy(v: JsonScore) {
    match v
    case Text(t) => t != []
    case NonText(_, truthy) => truthy
  }

  /** The critics' score of a block: any present `ratingValue` is parsed. */
  function JsonCriticsScore(json: JsonLd): (score: Option<nat>)
    ensures score.Some? ==> json.aggregate.Some? && score.value <= 100
  {
    if json.aggregate.Some? then InRange(ParsePercentage(json.aggregate.value)) else None
  }

  /** The audience score of a block: only a truthy `audienceScore` is parsed. */
  function JsonAudienceScore(json: JsonLd): (score: Option<nat>)
    ensures score.Some? ==> json.audience.Some? && JsonTruthy(json.audience.value) && score.value <= 100
  {
    if json.audience.Some? && JsonTruthy(json.audience.value) then InRange(ParsePercentage(json.audience.value)) else None
  }

  /** The record a reader pushes for an accepted score. */
  function ScorePush(score: Option<nat>, source: string, kind: string, suffix: string): seq<Record>
  {
    if score.Some? then [Record(source, NatToString(score.value) + suffix, None, Some(kind), None)] else []
  }

  /** The records both readers push: 'RT' for the critics, then 'RT Users' for the audience. */
  function ScoreRecords(critics: Option<nat>, audience: Option<nat>, suffix: string): seq<Record>
  {
    ScorePush(critics, "RT", "Critics", suffix) + ScorePush(audience, "RT Users", "Audience", suffix)
  }

  /** One guarded push of a reader, against its specification. */
  lemma PushStep(parsed: Option<int>, score: Option<nat>, source: string, kind: string, suffix: string,
                 before: seq<Record>, after: seq<Record>)
    requires score == InRange(parsed)
    requires after == if parsed.Some? && 0 <= parsed.value <= 100
      then before + [Record(source, IntToString(parsed.value) + suffix, None, Some(kind), None)] else before
    ensures after == before + ScorePush(score, source, kind, suffix)
  {
  }

  /**
   * The readers' output: one record per accepted score, the critics first, each
   * value the decimal score followed by the suffix.
   */
  lemma ScoreRecordsShape(critics: Option<nat>, audience: Option<nat>, suffix: string)
    ensures var rs := ScoreRecords(critics, audience, suffix);
      && |rs| == (if critics.Some? then 1 else 0) + (if audience.Some? then 1 else 0)
      && (critics.Some? ==> rs[0] == Record("RT", NatToString(critics.value) + suffix, None, Some("Critics"), None))
      && (audience.Some? ==> rs[|rs| - 1] == Record("RT Users", NatToString(audience.value) + suffix, None, Some("Audience"), None))
  {
  }

  /** `${n}%` read back by the DOM reader gives `n` again. */
  lemma DomScoreRoundTrip(n: nat)
    requires n <= 100
    ensures DomScore(NatToString(n) + "%") == Some(n)
  {
    PercentTrimmed(n);
    PercentParsed(n);
    DomScoreOf(NatToString(n) + "%", n);
  }

  lemma DomScoreOf(text: string, n: nat)
    requires n <= 100 && Trim(text) == text && ParseInt(text) == Some(n)
    ensures DomScore(text) == Some(n)
  {
  }

  lemma PercentParsed(n: nat)
    ensures ParseInt(NatToString(n) + "%") == Some(n)
  {
    ParseDigitsBeforeStop(NatToString(n), "%");
  }

  lemma PercentTrimmed(n: nat)
    ensures Trim(NatToString(n) + "%") == NatToString(n) + "%"
  {
    var t := NatToString(n) + "%";
    assert !IsSpace(t[0]) by { assert IsDigit(t[0]); }
    assert !IsSpace(t[|t| - 1]) by { assert t[|t| - 1] == '%'; }
    TrimUnchanged(t);
  }

  /** A JSON-LD string `n%` gives `n`, and so does the same number without the '%'. */
  lemma JsonScoreRoundTrip(n: nat)
    requires n <= 100
    ensures InRange(ParsePercentage(Text(NatToString(n) + "%"))) == Some(n)
    ensures InRange(ParsePercentage(Text(NatToString(n)))) == Some(n)
  {
    var digits := NatToString(n);
    assert '%' !in digits;
    assert Before(digits + "%", '%') == digits by {
      BeforeStop(digits, "%", '%');
    }
    assert RemoveFirst(digits + "%", '%') == digits;
    ParseIntDigits(digits);
  }
  /**
   * `scrapeDomRatings`: the critics' element, then the audience's; `None`
   * stands for an element that is not on the page.
   */
  method ScrapeDomRatings(criticsText: Option<string>, audienceText: Option<string>) returns (ratings: seq<Record>)
    ensures ratings == ScoreRecords(DomElementScore(criticsText), DomElementScore(audienceText), "%")
  {
    ratings := [];
    if criticsText.Some? {
      var scoreValue := ParseInt(Trim(criticsText.value));
      if scoreValue.Some? && 0 <= scoreValue.value <= 100 {
        ratings := ratings + [Record("RT", IntToString(scoreValue.value) + "%", None, Some("Critics"), None)];
      }
      PushStep(scoreValue, DomElementScore(criticsText), "RT", "Critics", "%", [], ratings);
    }
    ghost var critics := ratings;
    if audienceText.Some? {
      var scoreValue := ParseInt(Trim(audienceText.value));
      if scoreValue.Some? && 0 <= scoreValue.value <= 100 {
        ratings := ratings + [Record("RT Users", IntToString(scoreValue.value) + "%", None, Some("Audience"), None)];
      }
      PushStep(scoreValue, DomElementScore(audienceText), "RT Users", "Audience", "%", critics, ratings);
    }
    ReadersAssemble(DomElementScore(criticsText), DomElementScore(audienceText), "%", critics, ratings);
  }

  /** The two pushes of a reader, put together. */
  lemma ReadersAssemble(critics: Option<nat>, audience: Option<nat>, suffix: string,
                        afterCritics: seq<Record>, afterAudience: seq<Record>)
    requires critics.Some? ==> afterCritics == [] + ScorePush(critics, "RT", "Critics", suffix)
    requires critics.None? ==> afterCritics == []
    requires audience.Some? ==> afterAudience == afterCritics + ScorePush(audience, "RT Users", "Audience", suffix)
    requires audience.None? ==> afterAudience == afterCritics
    ensures afterAudience == ScoreRecords(critics, audience, suffix)
  {
    assert [] + ScorePush(critics, "RT", "Critics", suffix) == ScorePush(critics, "RT", "Critics", suffix);
    assert afterCritics + [] == afterCritics;
  }

  /** The score of an optional DOM element. */
  function DomElementScore(text: Option<string>): (score: Option<nat>)
    ensures score.Some? ==> text.Some? && score == DomScore(text.value)
  {
    if text.Some? then DomScore(text.value) else None
  }

  /** `parseJsonLdRatings` on one block: the critics' score, then the audience's. */
  method ParseJsonLdRatings(json: JsonLd) returns (ratings: seq<Record>)
    ensures ratings == ScoreRecords(JsonCriticsScore(json), JsonAudienceScore(json), "/100")
  {
    ratings := [];
    if json.aggregate.Some? {
      var value := ParsePercentage(json.aggregate.value);
      if value.Some? && 0 <= value.value <= 100 {
        ratings := ratings + [Record("RT", IntToString(value.value) + "/100", None, Some("Critics"), None)];
      }
      PushStep(value, JsonCriticsScore(json), "RT", "Critics", "/100", [], ratings);
    }
    ghost var critics := ratings;
    if json.audience.Some? && JsonTruthy(json.audience.value) {
      var audienceValue := ParsePercentage(json.audience.value);
      if audienceValue.Some? && 0 <= audienceValue.value <= 100 {
        ratings := ratings + [Record("RT Users", IntToString(audienceValue.value) + "/100", None, Some("Audience"), None)];
      }
      PushStep(audienceValue, JsonAudienceScore(json), "RT Users", "Audience", "/100", critics, ratings);
    }
    ReadersAssemble(JsonCriticsScore(json), JsonAudienceScore(json), "/100", critics, ratings);
  }

  /** What the scraper reads from a page: the JSON-LD blocks (`None` when one does not parse) and the two score elements. */
  datatype RtPage = RtPage(scripts: seq<Option<JsonLd>>, criticsText: Option<string>, audienceText: Option<string>)

  /** The records of all JSON-LD blocks, in document order. */
  function JsonLdRatings(scripts: seq<Option<JsonLd>>): seq<Record>
  {
    if scripts == [] then []
    else JsonLdRatings(scripts[..|scripts| - 1]) + BlockRatings(scripts[|scripts| - 1])
  }

  function BlockRatings(script: Option<JsonLd>): seq<Record>
  {
    match script
    case None => []
    case Some(json) => ScoreRecords(JsonCriticsScore(json), JsonAudienceScore(json), "/100")
  }

  /** The records before de-duplication: the JSON-LD ones, or the DOM ones when there are none. */
  function Collected(page: RtPage): seq<Record>
  {
    var fromJson := JsonLdRatings(page.scripts);
    if fromJson == [] then ScoreRecords(DomElementScore(page.criticsText), DomElementScore(page.audienceText), "%")
    else fromJson
  }

  /** The sources of some records. */
  function SourcesOf(rs: seq<Record>): set<string>
  {
    set r | r in rs :: r.source
  }

  /** The record kept for a source: only its source and value, with the page URL. */
  function Kept1(r: Record, url: string): Record
  {
    Record(r.source, r.value, Some(url), None, None)
  }

  /** The first record of each source, reduced to source, value and URL, in order of first appearance. */
  function Dedup(rs: seq<Record>, url: string): seq<Record>
  {
    if rs == [] then []
    else
      var init := rs[..|rs| - 1];
      var last := rs[|rs| - 1];
      Dedup(init, url) + (if last.source in SourcesOf(init) then [] else [Kept1(last, url)])
  }

  /** The page's result: the de-duplicated records, or `None` when there are none. */
  function PageRatings(page: RtPage, url: string): Option<seq<Record>>
  {
    var unique := Dedup(Collected(page), url);
    if unique == [] then None else Some(unique)
  }

  /**
   * `scrapeRottenTomatoesPage`: gather the JSON-LD records, fall back to the
   * DOM when there are none, then keep the first record of each source.
   */
  method ScrapeRottenTomatoesPage(page: RtPage, url: string) returns (r: Option<seq<Record>>)
    ensures r == PageRatings(page, url)
  {
    var ratings := ReadJsonLdBlocks(page.scripts);
    if |ratings| == 0 {
      var domRatings := ScrapeDomRatings(page.criticsText, page.audienceText);
      ratings := ratings + domRatings;
    }
    assert ratings == Collected(page);
    var uniqueRatings := Deduplicate(ratings, url);
    r := if |uniqueRatings| > 0 then Some(uniqueRatings) else None;
  }

  /** The `jsonLdScripts.each` loop: the records of every block that parses, in document order. */
  method ReadJsonLdBlocks(scripts: seq<Option<JsonLd>>) returns (ratings: seq<Record>)
    ensures ratings == JsonLdRatings(scripts)
  {
    ratings := [];
    var i := 0;
    while i < |scripts|
      invariant 0 <= i <= |scripts|
      invariant ratings == JsonLdRatings(scripts[..i])
    {
      ghost var before := ratings;
      match scripts[i] {
        case None =>
        case Some(json) =>
          var result := ParseJsonLdRatings(json);
          if |result| > 0 {
            ratings := ratings + result;
          }
      }
      JsonLdStep(scripts, i, before, ratings);
      i := i + 1;
    }
    assert scripts[..i] == scripts;
  }

  /** The `seenSources` loop: the first record of each source, reduced to source, value and URL. */
  method Deduplicate(ratings: seq<Record>, url: string) returns (uniqueRatings: seq<Record>)
    ensures uniqueRatings == Dedup(ratings, url)
  {
    uniqueRatings := [];
    var seenSources: set<string> := {};
    var j := 0;
    while j < |ratings|
      invariant 0 <= j <= |ratings|
      invariant uniqueRatings == Dedup(ratings[..j], url)
      invariant seenSources == SourcesOf(ratings[..j])
    {
      ghost var before := uniqueRatings;
      var rating := ratings[j];
      if rating.source !in seenSources {
        seenSources := seenSources + {rating.source};
        uniqueRatings := uniqueRatings + [Record(rating.source, rating.value, Some(url), None, None)];
      }
      DedupStep(ratings, j, url, before, uniqueRatings);
      SourcesStep(ratings, j);
      j := j + 1;
    }
    assert ratings[..j] == ratings;
  }

  lemma JsonLdStep(scripts: seq<Option<JsonLd>>, i: nat, before: seq<Record>, after: seq<Record>)
    requires i < |scripts|
    requires before == JsonLdRatings(scripts[..i])
    requires after == before + BlockRatings(scripts[i])
    ensures after == JsonLdRatings(scripts[..i + 1])
  {
    assert scripts[..i + 1][..i] == scripts[..i];
  }

  lemma DedupStep(rs: seq<Record>, j: nat, url: string, before: seq<Record>, after: seq<Record>)
    requires j < |rs|
    requires before == Dedup(rs[..j], url)
    requires after == before + (if rs[j].source in SourcesOf(rs[..j]) then [] else [Kept1(rs[j], url)])
    ensures after == Dedup(rs[..j + 1], url)
  {
    assert rs[..j + 1][..j] == rs[..j];
  }

  lemma SourcesStep(rs: seq<Record>, j: nat)
    requires j < |rs|
    ensures SourcesOf(rs[..j + 1]) == SourcesOf(rs[..j]) + {rs[j].source}
  {
    assert rs[..j + 1] == rs[..j] + [rs[j]];
  }
  lemma SourcesAppend(init: seq<Record>, last: Record)
    ensures SourcesOf(init + [last]) == SourcesOf(init) + {last.source}
  {
  }

  lemma DedupUnfold(rs: seq<Record>, url: string)
    requires rs != []
    ensures var init := rs[..|rs| - 1]; var last := rs[|rs| - 1];
      && rs == init + [last]
      && Dedup(rs, url) == Dedup(init, url) + (if last.source in SourcesOf(init) then [] else [Kept1(last, url)])
  {
  }

  /** De-duplication loses no source and invents none. */
  lemma {:induction false} DedupSources(rs: seq<Record>, url: string)
    ensures SourcesOf(Dedup(rs, url)) == SourcesOf(rs)
  {
    if rs != [] {
      var init := rs[..|rs| - 1];
      var last := rs[|rs| - 1];
      DedupUnfold(rs, url);
      DedupSources(init, url);
      SourcesAppend(init, last);
      if last.source !in SourcesOf(init) {
        SourcesAppend(Dedup(init, url), Kept1(last, url));
      } else {
        assert Dedup(init, url) + [] == Dedup(init, url);
      }
    }
  }

  /** No two kept records share a source. */
  lemma {:induction false} DedupDistinct(rs: seq<Record>, url: string)
    ensures var d := Dedup(rs, url);
      forall i, j :: 0 <= i < j < |d| ==> d[i].source != d[j].source
  {
    if rs != [] {
      var init := rs[..|rs| - 1];
      var last := rs[|rs| - 1];
      DedupUnfold(rs, url);
      DedupDistinct(init, url);
      var d0 := Dedup(init, url);
      if last.source !in SourcesOf(init) {
        DedupSources(init, url);
        forall i | 0 <= i < |d0|
          ensures d0[i].source != last.source
        {
          assert d0[i] in d0;
        }
      }
    }
  }

  /** Nothing is kept only when there was nothing to keep. */
  lemma DedupEmptyIff(rs: seq<Record>, url: string)
    ensures Dedup(rs, url) == [] <==> rs == []
  {
    DedupSources(rs, url);
    if rs != [] {
      assert rs[0].source in SourcesOf(rs);
      assert rs[0].source in SourcesOf(Dedup(rs, url));
    }
  }

  /** The value of the first record with a given source, if any. */
  function FirstValue(rs: seq<Record>, source: string): Option<string>
  {
    if rs == [] then None
    else if rs[0].source == source then Some(rs[0].value)
    else FirstValue(rs[1..], source)
  }

  lemma {:induction false} FirstValueAppend(init: seq<Record>, last: Record, source: string)
    ensures FirstValue(init + [last], source)
      == if source in SourcesOf(init) then FirstValue(init, source)
         else if last.source == source then Some(last.value) else None
  {
    if init == [] {
      assert init + [last] == [last];
    } else {
      assert (init + [last])[1..] == init[1..] + [last];
      FirstValueAppend(init[1..], last, source);
      assert SourcesOf(init) == {init[0].source} + SourcesOf(init[1..]) by {
        assert init == [init[0]] + init[1..];
      }
    }
  }

  /**
   * First seen wins: every kept record carries the value of the first input
   * record with its source, the page URL, and nothing else.
   */
  lemma {:induction false} DedupFirstWins(rs: seq<Record>, url: string)
    ensures var d := Dedup(rs, url);
      forall k :: 0 <= k < |d| ==>
        && FirstValue(rs, d[k].source) == Some(d[k].value)
        && d[k].url == Some(url) && d[k].kind.None? && d[k].count.None?
  {
    if rs != [] {
      var init := rs[..|rs| - 1];
      var last := rs[|rs| - 1];
      DedupUnfold(rs, url);
      DedupFirstWins(init, url);
      DedupSources(init, url);
      var d := Dedup(rs, url);
      var d0 := Dedup(init, url);
      forall k | 0 <= k < |d|
        ensures FirstValue(rs, d[k].source) == Some(d[k].value)
      {
        FirstValueAppend(init, last, d[k].source);
        if k < |d0| {
          assert d[k] == d0[k] && d0[k] in d0;
        }
      }
    }
  }

  /** The values of some records all end with `suffix`. */
  predicate ValuesEndWith(rs: seq<Record>, suffix: string) {
    forall r :: r in rs ==> EndsWith(r.value, suffix)
  }

  lemma ScoreRecordsSuffix(critics: Option<nat>, audience: Option<nat>, suffix: string)
    ensures ValuesEndWith(ScoreRecords(critics, audience, suffix), suffix)
  {
    forall n: nat
      ensures EndsWith(NatToString(n) + suffix, suffix)
    {
      var v := NatToString(n) + suffix;
      assert v[|v| - |suffix|..] == suffix;
    }
  }

  lemma {:induction false} JsonLdSuffix(scripts: seq<Option<JsonLd>>)
    ensures ValuesEndWith(JsonLdRatings(scripts), "/100")
  {
    if scripts != [] {
      JsonLdSuffix(scripts[..|scripts| - 1]);
      match scripts[|scripts| - 1]
      case None =>
      case Some(json) => ScoreRecordsSuffix(JsonCriticsScore(json), JsonAudienceScore(json), "/100");
    }
  }

  lemma {:induction false} DedupSuffix(rs: seq<Record>, url: string, suffix: string)
    requires ValuesEndWith(rs, suffix)
    ensures ValuesEndWith(Dedup(rs, url), suffix)
  {
    if rs != [] {
      var init := rs[..|rs| - 1];
      DedupUnfold(rs, url);
      assert forall r :: r in init ==> r in rs;
      DedupSuffix(init, url, suffix);
    }
  }

  /**
   * The DOM is read only when no JSON-LD block gives a score: then the page's
   * texts do not matter and every value is out of 100; otherwise every value
   * is a percentage. The result is `None` exactly when no score was accepted.
   */
  lemma JsonLdBeforeDom(page: RtPage, url: string)
    ensures PageRatings(page, url).None? <==> Collected(page) == []
    ensures JsonLdRatings(page.scripts) != [] ==>
      && (forall criticsText, audienceText ::
            PageRatings(RtPage(page.scripts, criticsText, audienceText), url) == PageRatings(page, url))
      && ValuesEndWith(Dedup(Collected(page), url), "/100")
    ensures JsonLdRatings(page.scripts) == [] ==> ValuesEndWith(Dedup(Collected(page), url), "%")
  {
    DedupEmptyIff(Collected(page), url);
    if JsonLdRatings(page.scripts) != [] {
      JsonLdSuffix(page.scripts);
      DedupSuffix(Collected(page), url, "/100");
    } else {
      ScoreRecordsSuffix(DomElementScore(page.criticsText), DomElementScore(page.audienceText), "%");
      DedupSuffix(Collected(page), url, "%");
    }
  }

  /**
   * `getRating`: no title or no base URL, no URL, no response or a status
   * other than 200 give `None`; otherwise the page's de-duplicated records.
   */
  method GetRating(kind: string, name: Option<string>, baseUrl: string, fetch: string -> Fetched<RtPage>)
    returns (r: Option<seq<Record>>)
    ensures !Truthy(name) || baseUrl == [] ==> r.None?
    ensures r.Some? ==> var url := GetRottenTomatoesUrl(baseUrl, name.value, kind);
      && url.Some?
      && fetch(url.value).Response? && fetch(url.value).status == 200
      && r == PageRatings(fetch(url.value).page, url.value)
    ensures Truthy(name) && baseUrl != [] ==> var url := GetRottenTomatoesUrl(baseUrl, name.value, kind);
      url.Some? && fetch(url.value).Response? && fetch(url.value).status == 200 ==> r == PageRatings(fetch(url.value).page, url.value)
  {
    if !Truthy(name) {
      return None;
    }
    if baseUrl == [] {
      return None;
    }
    var targetUrl := GetRottenTomatoesUrl(baseUrl, name.value, kind);
    if targetUrl.None? {
      return None;
    }
    var response := fetch(targetUrl.value);
    if response.NoResponse? || response.status != 200 {
      return None;
    }
    r := ScrapeRottenTomatoesPage(response.page, targetUrl.value);
  }
}
