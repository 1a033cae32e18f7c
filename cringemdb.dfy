/**
 * The CringeMDB provider (src/providers/cringemdb.js): the movie URL with its
 * own slug, the assembly of the certification and content-warning lines, and
 * the guards of `getRating`.
 */
module CringeMdb {
  import opened Wrappers
  import opened JsString
  import opened Records

  const ProviderName := "CringeMDB"

  /** The certification texts, kept code point by code point as they appear in the source. */
  const SafeText := "\U{E2}\U{153}\U{2026} Parent-Safe"
  const NotSafeText := "\U{E2}\U{161}\U{A0}\U{EF}\U{B8} Not Parent Safe"

  /** The class `[a-z0-9\s]` that the slug keeps. */
  predicate IsSlugSource(c: char) { IsLowerAlnum(c) || IsSpace(c) }

  /** Lower-case, keep `[a-z0-9\s]`, trim, then turn each white-space run into '-'. */
  function CringeSlug(title: string): (slug: string)
  {
    Hyphenated(Trim(Kept(Lower(title))))
  }

  function Kept(lowered: string): string { Filter(lowered, IsSlugSource) }

  function Hyphenated(trimmed: string): string { ReplaceRuns(trimmed, IsSpace, '-') }

  /** Lower-case letters, digits and single inner hyphens. */
  predicate IsCringeSlug(s: string) {
    && (forall i :: 0 <= i < |s| ==> IsLowerAlnum(s[i]) || s[i] == '-')
    && NoDouble(s, '-')
    && (s == [] || (s[0] != '-' && s[|s| - 1] != '-'))
  }

  /** Every slug has that shape: the hyphens only ever stand between two words. */
  lemma CringeSlugShape(title: string)
    ensures IsCringeSlug(CringeSlug(title))
  {
    var kept := Kept(Lower(title));
    FilterChars(Lower(title), IsSlugSource);
    TrimChars(kept);
    HyphenatedShape(Trim(kept));
  }

  lemma HyphenatedShape(trimmed: string)
    requires forall c :: c in trimmed ==> IsSlugSource(c)
    requires trimmed == [] || (!IsSpace(trimmed[0]) && !IsSpace(trimmed[|trimmed| - 1]))
    ensures IsCringeSlug(Hyphenated(trimmed))
  {
    HyphenatedChars(trimmed);
    HyphenatedNoDouble(trimmed);
    if trimmed != [] {
      HyphenatedEnds(trimmed);
    }
  }

  lemma HyphenatedChars(trimmed: string)
    requires forall c :: c in trimmed ==> IsSlugSource(c)
    ensures forall i :: 0 <= i < |Hyphenated(trimmed)| ==> IsLowerAlnum(Hyphenated(trimmed)[i]) || Hyphenated(trimmed)[i] == '-'
  {
    var slug := Hyphenated(trimmed);
    ReplaceRunsChars(trimmed, IsSpace, '-');
    assert forall i :: 0 <= i < |slug| ==> slug[i] in slug;
  }

  lemma HyphenatedNoDouble(trimmed: string)
    requires forall c :: c in trimmed ==> IsSlugSource(c)
    ensures NoDouble(Hyphenated(trimmed), '-')
  {
    assert '-' !in trimmed;
    ReplaceRunsNoDouble(trimmed, IsSpace, '-');
  }

  lemma HyphenatedEnds(trimmed: string)
    requires forall c :: c in trimmed ==> IsSlugSource(c)
    requires trimmed != [] && !IsSpace(trimmed[0]) && !IsSpace(trimmed[|trimmed| - 1])
    ensures Hyphenated(trimmed)[0] != '-'
    ensures Hyphenated(trimmed)[|Hyphenated(trimmed)| - 1] != '-'
  {
    assert trimmed[0] in trimmed && trimmed[|trimmed| - 1] in trimmed;
    ReplaceRunsLast(trimmed, IsSpace, '-');
  }

  /**
   * A character that is not a letter, digit or white space vanishes without
   * leaving a separator, so "Spider-Man" and "SpiderMan" share a slug.
   */
  lemma CringeSlugDropsCharacter(a: string, c: char, b: string)
    requires !IsSlugSource(LowerChar(c))
    ensures CringeSlug(a + [c] + b) == CringeSlug(a + b)
  {
    LowerAround(a, c, b);
    KeptAround(Lower(a), LowerChar(c), Lower(b));
  }

  lemma KeptAround(a: string, c: char, b: string)
    requires !IsSlugSource(c)
    ensures Kept(a + [c] + b) == Kept(a + b)
  {
    FilterConcat(a + [c], b, IsSlugSource);
    FilterConcat(a, [c], IsSlugSource);
    FilterConcat(a, b, IsSlugSource);
  }

  /** `getCringeMDBUrl`: `None` when the title, the year or the base URL is missing, or the slug is empty. */
  function GetCringeMdbUrl(baseUrl: string, title: string, releaseYear: Option<string>): (url: Option<string>)
    ensures url.Some? <==> title != [] && Truthy(releaseYear) && baseUrl != [] && CringeSlug(title) != []
    ensures url.Some? ==> url.value == baseUrl + "/movie/" + CringeSlug(title) + "-" + releaseYear.value
  {
    if title == [] || !Truthy(releaseYear) || baseUrl == [] then None
    else
      var slug := CringeSlug(title);
      if slug == [] then None else Some(baseUrl + "/movie/" + slug + "-" + releaseYear.value)
  }

  /** One `.content-flag` element: the trimmed texts are taken inside the scraper. */
  datatype ContentFlag = ContentFlag(categoryText: string, valueText: string)

  /** What the scraper reads from a page: whether the safe emoji is present, and the flags in document order. */
  datatype CringePage = CringePage(isVerifiedSafe: bool, flags: seq<ContentFlag>)

  /** An entry of the `warnings` list. */
  datatype Warning = Warning(category: string, text: string)

  /**
   * `value.toUpperCase() === 'YES'`. Besides the ASCII letters, only U+017F
   * (long s) upper-cases to a letter of "YES".
   */
  predicate IsYes(v: string) {
    && |v| == 3
    && (v[0] == 'y' || v[0] == 'Y')
    && (v[1] == 'e' || v[1] == 'E')
    && (v[2] == 's' || v[2] == 'S' || v[2] == '\U{17F}')
  }

  /** `warningMap[category] || default flag`. */
  function WarningEmoji(category: string): string
  {
    match category
    case "Sex Scene" => "\U{F0}\U{178}\U{201D}\U{17E}"
    case "Nudity" => "\U{F0}\U{178}\U{2018}\U{EF}\U{B8}\U{E2}\U{20AC}\U{F0}\U{178}\U{2014}\U{A8}\U{EF}\U{B8}"
    case "Sexual Violence" => "\U{F0}\U{178}\U{2019}\U{201D}"
    case "Graphic Violence" => "\U{F0}\U{178}\U{A9}\U{B8}"
    case "Drug Use" => "\U{F0}\U{178}\U{2019}\U{160}"
    case "Excessive Swearing" => "\U{F0}\U{178}\U{A4}\U{AC}"
    case _ => "\U{F0}\U{178}\U{161}\U{A9}"
  }

  /** The text of a warning: the category's emoji, a space, the category. */
  function WarningText(category: string): string
  {
    WarningEmoji(category) + " " + category
  }

  /** A warning text ends as its category does. */
  lemma WarningTextEnd(category: string)
    requires category != []
    ensures var text := WarningText(category); text != [] && text[|text| - 1] == category[|category| - 1]
  {
  }

  /** The warning pushed for one flag: none unless its value says yes. */
  function FlagWarning(flag: ContentFlag): (ws: seq<Warning>)
    ensures |ws| <= 1
  {
    var category := Trim(flag.categoryText);
    if IsYes(Trim(flag.valueText)) then [Warning(category, WarningText(category))] else []
  }

  /** The warnings pushed for the flags, in document order. */
  function FlagWarnings(flags: seq<ContentFlag>): (ws: seq<Warning>)
    ensures |ws| <= |flags|
  {
    if flags == [] then [] else FlagWarnings(flags[..|flags| - 1]) + FlagWarning(flags[|flags| - 1])
  }

  /** `warnings.find(w => w.category === 'Certification')?.text || ''` */
  function CertificationText(warnings: seq<Warning>): string
  {
    if warnings == [] then []
    else if warnings[0].category == "Certification" then warnings[0].text
    else CertificationText(warnings[1..])
  }

  /** The texts of the warnings that are not the certification. */
  function ContentTexts(warnings: seq<Warning>): (texts: seq<string>)
    ensures |texts| <= |warnings|
  {
    if warnings == [] then []
    else (if warnings[0].category != "Certification" then [warnings[0].text] else []) + ContentTexts(warnings[1..])
  }

  /** The certification line followed by the content lines, joined by newlines, before trimming. */
  function Combined(cert: string, content: seq<string>): string
  {
    if |content| > 0 then cert + (if cert != [] then "\n" else "") + Join(content, "\n") else cert
  }

  /** The combined value: the certification, then the content warnings, one per line, trimmed. */
  function CombinedValue(warnings: seq<Warning>): string
  {
    Trim(Combined(CertificationText(warnings), ContentTexts(warnings)))
  }

  /**
   * `scrapeCringeMDBPage`: the certification entry is pushed first, then one
   * entry per flag that says yes; the record is built from the combined value.
   * The certification entry makes the list non-empty, so the result is never null.
   */
  method ScrapeCringeMdbPage(page: CringePage, url: string) returns (r: Option<Record>)
    ensures r.Some?
    ensures r.value == Record(ProviderName, CombinedValue(PageWarnings(page)), Some(url), Some("Content Warnings"), None)
  {
    var certification := Warning("Certification", PageCertification(page));
    var warnings := [certification];
    var i := 0;
    while i < |page.flags|
      invariant 0 <= i <= |page.flags|
      invariant warnings == [certification] + FlagWarnings(page.flags[..i])
    {
      ghost var before := warnings;
      var category := Trim(page.flags[i].categoryText);
      var value := Trim(page.flags[i].valueText);
      if IsYes(value) {
        warnings := warnings + [Warning(category, WarningText(category))];
      }
      assert warnings == before + FlagWarning(page.flags[i]);
      ScrapeStep(certification, page.flags, i, before, warnings);
      i := i + 1;
    }
    assert page.flags[..i] == page.flags;
    if |warnings| > 0 {
      r := Some(Record(ProviderName, CombinedValue(warnings), Some(url), Some("Content Warnings"), None));
    } else {
      r := None;
    }
  }

  lemma ScrapeStep(certification: Warning, flags: seq<ContentFlag>, i: nat, before: seq<Warning>, after: seq<Warning>)
    requires i < |flags|
    requires before == [certification] + FlagWarnings(flags[..i])
    requires after == before + FlagWarning(flags[i])
    ensures after == [certification] + FlagWarnings(flags[..i + 1])
  {
    FlagWarningsStep(flags, i);
    AppendAssoc([certification], FlagWarnings(flags[..i]), FlagWarning(flags[i]));
  }

  lemma FlagWarningsStep(flags: seq<ContentFlag>, i: nat)
    requires i < |flags|
    ensures FlagWarnings(flags[..i + 1]) == FlagWarnings(flags[..i]) + FlagWarning(flags[i])
  {
    assert flags[..i + 1][..i] == flags[..i];
  }

  /** The certification text the scraper reads off the page's safe emoji. */
  function PageCertification(page: CringePage): string
  {
    if page.isVerifiedSafe then SafeText else NotSafeText
  }

  /** The warnings list the scraper builds for a page. */
  function PageWarnings(page: CringePage): seq<Warning>
  {
    [Warning("Certification", PageCertification(page))] + FlagWarnings(page.flags)
  }

  lemma PageCertificationFirst(page: CringePage)
    ensures CertificationText(PageWarnings(page)) == PageCertification(page)
  {
  }

  lemma CombinedSplit(cert: string, content: seq<string>)
    requires cert != []
    ensures Combined(cert, content) == cert + (if |content| > 0 then "\n" + Join(content, "\n") else [])
  {
    if |content| > 0 {
      assert cert + "\n" + Join(content, "\n") == cert + ("\n" + Join(content, "\n"));
    } else {
      assert cert + [] == cert;
    }
  }

  lemma TrimKeepsCertification(page: CringePage, rest: string)
    ensures StartsWith(Trim(PageCertification(page) + rest), PageCertification(page))
  {
    if page.isVerifiedSafe {
      assert !IsSpace(SafeText[0]) && !IsSpace(SafeText[|SafeText| - 1]);
      TrimKeepsPrefix(SafeText, rest);
    } else {
      assert !IsSpace(NotSafeText[0]) && !IsSpace(NotSafeText[|NotSafeText| - 1]);
      TrimKeepsPrefix(NotSafeText, rest);
    }
  }

  /** The combined value always begins with the certification line. */
  lemma ValueStartsWithCertification(page: CringePage)
    ensures StartsWith(CombinedValue(PageWarnings(page)), PageCertification(page))
  {
    var warnings := PageWarnings(page);
    var content := ContentTexts(warnings);
    PageCertificationFirst(page);
    assert PageCertification(page) != [];
    CombinedSplit(PageCertification(page), content);
    TrimKeepsCertification(page, if |content| > 0 then "\n" + Join(content, "\n") else []);
  }

  lemma PageWarningsAppend(page: CringePage, flag: ContentFlag)
    ensures PageWarnings(CringePage(page.isVerifiedSafe, page.flags + [flag])) == PageWarnings(page) + FlagWarning(flag)
  {
    var flags := page.flags + [flag];
    FlagWarningsStep(flags, |page.flags|);
    TakeAll(flags);
    TakeAppend(page.flags, [flag]);
    assert flags[|page.flags|] == flag;
    AppendAssoc([Warning("Certification", PageCertification(page))], FlagWarnings(page.flags), FlagWarning(flag));
  }

  lemma CertificationFlagCategory(value: string)
    ensures forall w :: w in FlagWarning(ContentFlag("Certification", value)) ==> w.category == "Certification"
  {
    var flag := ContentFlag("Certification", value);
    TrimUnchanged("Certification");
    assert Trim(flag.categoryText) == "Certification";
    if IsYes(Trim(value)) {
      assert FlagWarning(flag) == [Warning("Certification", WarningText("Certification"))];
    } else {
      assert FlagWarning(flag) == [];
    }
  }

  lemma CertificationTextAppend(page: CringePage, tail: seq<Warning>)
    ensures CertificationText(PageWarnings(page) + tail) == PageCertification(page)
  {
    assert (PageWarnings(page) + tail)[0] == Warning("Certification", PageCertification(page));
  }

  /**
   * A flag whose category reads "Certification" changes nothing: it is never
   * the first certification entry and is filtered out of the content lines.
   */
  lemma CertificationFlagIgnored(page: CringePage, value: string)
    ensures var extra := CringePage(page.isVerifiedSafe, page.flags + [ContentFlag("Certification", value)]);
      CombinedValue(PageWarnings(extra)) == CombinedValue(PageWarnings(page))
  {
    var flag := ContentFlag("Certification", value);
    var tail := FlagWarning(flag);
    PageWarningsAppend(page, flag);
    CertificationFlagCategory(value);
    CertificationTextAppend(page, tail);
    PageCertificationFirst(page);
    ContentTextsAppend(PageWarnings(page), tail);
  }

  lemma {:induction false} ContentTextsAppend(ws: seq<Warning>, tail: seq<Warning>)
    requires forall w :: w in tail ==> w.category == "Certification"
    ensures ContentTexts(ws + tail) == ContentTexts(ws)
  {
    if ws == [] {
      assert ws + tail == tail;
      if tail != [] {
        ContentTextsAppend([], tail[1..]);
        assert [] + tail[1..] == tail[1..];
      }
    } else {
      assert (ws + tail)[1..] == ws[1..] + tail;
      ContentTextsAppend(ws[1..], tail);
    }
  }

  /** A flag whose value does not read yes changes nothing. */
  lemma NoFlagIgnored(page: CringePage, flag: ContentFlag)
    requires !IsYes(Trim(flag.valueText))
    ensures var extra := CringePage(page.isVerifiedSafe, page.flags + [flag]);
      CombinedValue(PageWarnings(extra)) == CombinedValue(PageWarnings(page))
  {
    PageWarningsAppend(page, flag);
    assert PageWarnings(page) + [] == PageWarnings(page);
  }

  /** The content line a flag contributes: its warning text when it says yes and is not the certification. */
  function FlagLine(flag: ContentFlag): seq<string>
  {
    var category := Trim(flag.categoryText);
    if IsYes(Trim(flag.valueText)) && category != "Certification" then [WarningText(category)] else []
  }

  /** The content lines of the flags, in document order. */
  function YesLines(flags: seq<ContentFlag>): seq<string>
  {
    if flags == [] then [] else YesLines(flags[..|flags| - 1]) + FlagLine(flags[|flags| - 1])
  }

  /** Every flag has a category heading with some text in it. */
  predicate Labelled(flags: seq<ContentFlag>)
  {
    forall k :: 0 <= k < |flags| ==> Trim(flags[k].categoryText) != []
  }

  /**
   * The combined value is the certification line, then one line per flag that
   * says yes (other than a "Certification" flag), in document order, trimmed.
   */
  lemma PageValueLines(page: CringePage)
    ensures CombinedValue(PageWarnings(page)) == Trim(Combined(PageCertification(page), YesLines(page.flags)))
  {
    PageCertificationFirst(page);
    PageContentLines(page);
  }

  lemma PageContentLines(page: CringePage)
    ensures ContentTexts(PageWarnings(page)) == YesLines(page.flags)
  {
    var first := Warning("Certification", PageCertification(page));
    ContentTextsConcat([first], FlagWarnings(page.flags));
    FlagContentLines(page.flags);
  }

  /**
   * When every flag has a category, nothing is trimmed: the value is exactly
   * the certification line followed by the yes lines.
   */
  lemma YesFlagsListed(page: CringePage)
    requires Labelled(page.flags)
    ensures CombinedValue(PageWarnings(page)) == Combined(PageCertification(page), YesLines(page.flags))
  {
    var cert := PageCertification(page);
    PageValueLines(page);
    CertificationUnpadded(page);
    YesLinesEnd(page.flags);
    CombinedUntrimmed(cert, YesLines(page.flags));
  }

  lemma CertificationUnpadded(page: CringePage)
    ensures var cert := PageCertification(page); cert != [] && !IsSpace(cert[0]) && !IsSpace(cert[|cert| - 1])
  {
    if page.isVerifiedSafe {
      assert !IsSpace(SafeText[0]) && !IsSpace(SafeText[|SafeText| - 1]);
    } else {
      assert !IsSpace(NotSafeText[0]) && !IsSpace(NotSafeText[|NotSafeText| - 1]);
    }
  }

  /** A combined value between non-blank ends has nothing to trim. */
  lemma CombinedUntrimmed(cert: string, lines: seq<string>)
    requires cert != [] && !IsSpace(cert[0]) && !IsSpace(cert[|cert| - 1])
    requires lines != [] ==> EndsSolid(lines[|lines| - 1])
    ensures Trim(Combined(cert, lines)) == Combined(cert, lines)
  {
    CombinedSplit(cert, lines);
    var s := Combined(cert, lines);
    assert s[0] == cert[0];
    if |lines| > 0 {
      assert EndsSolid(lines[|lines| - 1]);
      JoinLast(lines, "\n");
      var j := Join(lines, "\n");
      assert s == cert + ("\n" + j);
      assert s[|s| - 1] == j[|j| - 1];
    }
    TrimUnchanged(s);
  }

  /**
   * A flag that says yes, whose category is not "Certification", adds exactly
   * its line `emoji category` at the end of the value.
   */
  lemma YesFlagAppended(page: CringePage, flag: ContentFlag)
    requires Labelled(page.flags)
    requires IsYes(Trim(flag.valueText))
    requires Trim(flag.categoryText) != [] && Trim(flag.categoryText) != "Certification"
    ensures var extra := CringePage(page.isVerifiedSafe, page.flags + [flag]);
      var category := Trim(flag.categoryText);
      CombinedValue(PageWarnings(extra)) == CombinedValue(PageWarnings(page)) + "\n" + WarningEmoji(category) + " " + category
  {
    var line := WarningText(Trim(flag.categoryText));
    var extra := CringePage(page.isVerifiedSafe, page.flags + [flag]);
    LabelledSnoc(page.flags, flag);
    YesFlagsListed(page);
    YesFlagsListed(extra);
    YesLinesSnoc(page.flags, flag);
    assert FlagLine(flag) == [line];
    CombinedSnoc(PageCertification(page), YesLines(page.flags), line);
    var front := CombinedValue(PageWarnings(page)) + "\n";
    var category := Trim(flag.categoryText);
    AppendAssoc(front, WarningEmoji(category) + " ", category);
    AppendAssoc(front, WarningEmoji(category), " ");
  }

  lemma LabelledSnoc(flags: seq<ContentFlag>, flag: ContentFlag)
    requires Labelled(flags) && Trim(flag.categoryText) != []
    ensures Labelled(flags + [flag])
  {
    var all := flags + [flag];
    forall k | 0 <= k < |all|
      ensures Trim(all[k].categoryText) != []
    {
      if k < |flags| { assert all[k] == flags[k]; }
    }
  }

  lemma YesLinesSnoc(flags: seq<ContentFlag>, flag: ContentFlag)
    ensures YesLines(flags + [flag]) == YesLines(flags) + FlagLine(flag)
  {
    var all := flags + [flag];
    TakeAppend(flags, [flag]);
    assert all[|all| - 1] == flag;
  }

  lemma {:induction false} ContentTextsConcat(ws: seq<Warning>, tail: seq<Warning>)
    ensures ContentTexts(ws + tail) == ContentTexts(ws) + ContentTexts(tail)
  {
    if ws == [] {
      assert ws + tail == tail;
    } else {
      assert (ws + tail)[1..] == ws[1..] + tail;
      ContentTextsConcat(ws[1..], tail);
      var head := if ws[0].category != "Certification" then [ws[0].text] else [];
      AppendAssoc(head, ContentTexts(ws[1..]), ContentTexts(tail));
    }
  }

  lemma {:induction false} FlagContentLines(flags: seq<ContentFlag>)
    ensures ContentTexts(FlagWarnings(flags)) == YesLines(flags)
  {
    if flags != [] {
      var init := flags[..|flags| - 1];
      var last := flags[|flags| - 1];
      FlagContentLines(init);
      ContentTextsConcat(FlagWarnings(init), FlagWarning(last));
      var category := Trim(last.categoryText);
      if IsYes(Trim(last.valueText)) {
        var w := Warning(category, WarningText(category));
        assert ContentTexts([w]) == (if category != "Certification" then [w.text] else []) + ContentTexts([]);
      }
    }
  }

  /** The string has a last character and it is not white space. */
  predicate EndsSolid(s: string)
  {
    s != [] && !IsSpace(s[|s| - 1])
  }

  /** The last yes line of labelled flags ends in a character that is not white space. */
  lemma {:induction false} YesLinesEnd(flags: seq<ContentFlag>)
    requires Labelled(flags)
    ensures var lines := YesLines(flags); lines != [] ==> EndsSolid(lines[|lines| - 1])
  {
    if flags != [] {
      var init := flags[..|flags| - 1];
      var flag := flags[|flags| - 1];
      var before := YesLines(init);
      assert YesLines(flags) == before + FlagLine(flag);
      LabelledInit(flags);
      if FlagLine(flag) == [] {
        YesLinesEnd(init);
        AppendNil(before);
      } else {
        FlagLineEnd(flag, before);
      }
    }
  }

  lemma FlagLineEnd(flag: ContentFlag, before: seq<string>)
    requires Trim(flag.categoryText) != [] && FlagLine(flag) != []
    ensures var lines := before + FlagLine(flag); EndsSolid(lines[|lines| - 1])
  {
    var text := WarningText(Trim(flag.categoryText));
    WarningTextEnd(Trim(flag.categoryText));
    assert FlagLine(flag) == [text];
    assert (before + [text])[|before|] == text;
  }

  lemma LabelledInit(flags: seq<ContentFlag>)
    requires flags != [] && Labelled(flags)
    ensures Labelled(flags[..|flags| - 1])
  {
    var init := flags[..|flags| - 1];
    forall k | 0 <= k < |init|
      ensures Trim(init[k].categoryText) != []
    {
      assert init[k] == flags[k];
    }
  }

  /** Joining parts whose last part is not empty ends in that part's last character. */
  lemma {:induction false} JoinLast(parts: seq<string>, sep: string)
    requires parts != [] && parts[|parts| - 1] != []
    ensures var j := Join(parts, sep); j != [] && j[|j| - 1] == parts[|parts| - 1][|parts[|parts| - 1]| - 1]
  {
    if |parts| > 1 {
      JoinLast(parts[1..], sep);
      assert parts[1..][|parts| - 2] == parts[|parts| - 1];
    }
  }

  lemma {:induction false} JoinSnoc(parts: seq<string>, x: string, sep: string)
    requires parts != []
    ensures Join(parts + [x], sep) == Join(parts, sep) + sep + x
  {
    var p := parts + [x];
    assert p[0] == parts[0];
    if |parts| == 1 {
      assert p[1..] == [x];
    } else {
      assert p[1..] == parts[1..] + [x];
      JoinSnoc(parts[1..], x, sep);
    }
  }

  lemma CombinedSnoc(cert: string, lines: seq<string>, line: string)
    requires cert != []
    ensures Combined(cert, lines + [line]) == Combined(cert, lines) + "\n" + line
  {
    if lines == [] {
      assert lines + [line] == [line];
    } else {
      JoinSnoc(lines, line, "\n");
    }
  }

  /**
   * `getRating`: only movies, only with a title and a year and a configured base
   * URL, and only when a URL can be built; a missing or non-200 response gives `None`.
   */
  function GetRating(kind: string, name: Option<string>, year: Option<string>, baseUrl: string,
                     fetch: string -> Fetched<CringePage>): (r: Option<Record>)
    ensures kind != "movie" || !Truthy(name) || !Truthy(year) || baseUrl == [] ==> r.None?
    ensures r.Some? ==> var url := GetCringeMdbUrl(baseUrl, name.value, year);
      && url.Some?
      && fetch(url.value).Response? && fetch(url.value).status == 200
      && r.value == Record(ProviderName, CombinedValue(PageWarnings(fetch(url.value).page)), url, Some("Content Warnings"), None)
    ensures kind == "movie" && Truthy(name) && Truthy(year) && baseUrl != [] ==>
      var url := GetCringeMdbUrl(baseUrl, name.value, year);
      url.Some? && fetch(url.value).Response? && fetch(url.value).status == 200 ==>
        r == Some(Record(ProviderName, CombinedValue(PageWarnings(fetch(url.value).page)), url, Some("Content Warnings"), None))
  {
    if kind != "movie" then None
    else if !Truthy(name) || !Truthy(year) then None
    else if baseUrl == [] then None
    else
      match GetCringeMdbUrl(baseUrl, name.value, year)
      case None => None
      case Some(url) =>
        match fetch(url)
        case NoResponse => None
        case Response(status, page) =>
          if status != 200 then None
          else Some(Record(ProviderName, CombinedValue(PageWarnings(page)), Some(url), Some("Content Warnings"), None))
  }
}
