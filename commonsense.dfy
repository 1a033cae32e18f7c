/**
 * The Common Sense Media provider (src/providers/commonsense.js): the review
 * page URL, the age rating read from the page, and the guards of `getRating`.
 */
module CommonSense {
  import opened Wrappers
  import opened JsString
  import opened Records
  import UrlFormatter

  const ProviderName := "Common Sense"

  /** Series are reviewed under `tv-reviews`, everything else under `movie-reviews`. */
  function ReviewType(kind: string): string { if kind == "series" then "tv-reviews" else "movie-reviews" }

  /**
   * `getCommonSenseUrl`: `None` without a title, without a base URL or when
   * the title leaves an empty slug.
   */
  function GetCommonSenseUrl(baseUrl: string, title: string, kind: string): (url: Option<string>)
    ensures url.Some? <==> title != [] && baseUrl != [] && UrlFormatter.FormatTitleForUrlSlug(title) != []
  {
    if title == [] || baseUrl == [] then None
    else
      var slug := UrlFormatter.FormatTitleForUrlSlug(title);
      if slug == [] then None else Some(baseUrl + "/" + ReviewType(kind) + "/" + slug)
  }

  /**
   * A URL is the base, the review type, and a non-empty slug of lower-case
   * letters, digits and single hyphens.
   */
  lemma CommonSenseUrlShape(baseUrl: string, title: string, kind: string)
    requires GetCommonSenseUrl(baseUrl, title, kind).Some?
    ensures var url := GetCommonSenseUrl(baseUrl, title, kind).value;
      var prefix := baseUrl + "/" + ReviewType(kind) + "/";
      && |url| > |prefix| && url[..|prefix|] == prefix
      && UrlFormatter.IsSlug(url[|prefix|..])
  {
    var slug := UrlFormatter.FormatTitleForUrlSlug(title);
    UrlFormatter.SlugCharset(title);
    var prefix := baseUrl + "/" + ReviewType(kind) + "/";
    assert GetCommonSenseUrl(baseUrl, title, kind).value == prefix + slug;
  }

  /** The text opens with `age`, in any case. */
  predicate StartsWithAge(s: string) { |s| >= 3 && EqualsIgnoringCase(s[..3], "age") }

  /** Removing the pattern `^age\s*` with the `i` flag: one leading `age` and the white space after it go. */
  function StripAge(s: string): string
  {
    if StartsWithAge(s) then TrimStart(s[3..]) else s
  }

  /**
   * The age rating in the text of the rating span: trimmed, without its
   * `age` label, trimmed again; `None` when nothing is left at either step.
   */
  function AgeRating(text: string): Option<string>
  {
    var t := Trim(text);
    if t == [] then None
    else
      var value := Trim(StripAge(t));
      if value == [] then None else Some(value)
  }

  /** `scrapeCommonSensePage`: the age rating as a record pointing at the page. */
  function ScrapeCommonSensePage(ageRatingText: string, url: string): (r: Option<Record>)
    ensures r.Some? <==> AgeRating(ageRatingText).Some?
    ensures r.Some? ==>
      && r.value.value == AgeRating(ageRatingText).value
      && r.value.source == ProviderName && r.value.url == Some(url)
      && r.value.kind == Some("Age Rating") && r.value.count.None?
  {
    match AgeRating(ageRatingText)
    case None => None
    case Some(value) => Some(Record(ProviderName, value, Some(url), Some("Age Rating"), None))
  }

  /** An age rating is never empty and has no white space at either end. */
  lemma AgeRatingTrimmed(text: string)
    requires AgeRating(text).Some?
    ensures var v := AgeRating(text).value; v != [] && Trim(v) == v
  {
    TrimUnchanged(AgeRating(text).value);
  }

  /** "age", in any case, then white space, then the rating: the rating is what is kept. */
  lemma AgeLabelDropped(tag: string, spaces: string, v: string)
    requires EqualsIgnoringCase(tag, "age") && AllSpace(spaces)
    requires v != [] && Trim(v) == v
    ensures AgeRating(tag + spaces + v) == Some(v)
  {
    LabelledTrimmed(tag, spaces, v);
    LabelStripped(tag, spaces, v);
    AgeRatingOf(tag + spaces + v, v);
  }

  lemma AgeRatingOf(text: string, v: string)
    requires text != [] && Trim(text) == text
    requires StripAge(text) == v && v != [] && Trim(v) == v
    ensures AgeRating(text) == Some(v)
  {
  }

  lemma LabelledTrimmed(tag: string, spaces: string, v: string)
    requires EqualsIgnoringCase(tag, "age")
    requires v != [] && Trim(v) == v
    ensures Trim(tag + spaces + v) == tag + spaces + v
  {
    var text := tag + spaces + v;
    assert !IsSpace(tag[0]) by { assert LowerChar(tag[0]) == 'a'; }
    assert !IsSpace(v[|v| - 1]);
    assert text[0] == tag[0] && text[|text| - 1] == v[|v| - 1];
    TrimUnchanged(text);
  }

  lemma LabelStripped(tag: string, spaces: string, v: string)
    requires EqualsIgnoringCase(tag, "age") && AllSpace(spaces)
    requires v != [] && Trim(v) == v
    ensures StripAge(tag + spaces + v) == v
  {
    var text := tag + spaces + v;
    assert text[..3] == tag;
    assert text[3..] == spaces + v;
    assert !IsSpace(v[0]);
    TrimStartSpaces(spaces, v);
  }

  /** "age" followed only by white space leaves no rating. */
  lemma AgeLabelAlone(tag: string, spaces: string)
    requires EqualsIgnoringCase(tag, "age") && AllSpace(spaces)
    ensures AgeRating(tag + spaces) == None
  {
    assert !IsSpace(tag[0]) by { assert LowerChar(tag[0]) == 'a'; }
    assert !IsSpace(tag[2]) by { assert LowerChar(tag[2]) == 'e'; }
    TrimEndSpaces(tag, spaces);
    TrimUnchanged(tag);
    assert TrimStart(tag + spaces) == tag + spaces;
    assert tag[3..] == [];
  }

  /** A rating without the label, such as "10+", is kept as it is. */
  lemma PlainRatingKept(v: string)
    requires v != [] && Trim(v) == v && !StartsWithAge(v)
    ensures AgeRating(v) == Some(v)
  {
  }

  /** Only one label is dropped: "age age 5" rates "age 5". */
  lemma LabelDroppedOnce(tag: string, v: string)
    requires EqualsIgnoringCase(tag, "age")
    requires v != [] && Trim(v) == v
    ensures AgeRating(tag + " " + (tag + " " + v)) == Some(tag + " " + v)
  {
    LabelledTrimmed(tag, " ", v);
    DropOneLabel(tag, tag + " " + v);
  }

  lemma DropOneLabel(tag: string, inner: string)
    requires EqualsIgnoringCase(tag, "age")
    requires inner != [] && Trim(inner) == inner
    ensures AgeRating(tag + " " + inner) == Some(inner)
  {
    assert AllSpace(" ");
    AgeLabelDropped(tag, " ", inner);
  }

  lemma {:induction false} TrimStartSpaces(spaces: string, v: string)
    requires AllSpace(spaces)
    requires v == [] || !IsSpace(v[0])
    ensures TrimStart(spaces + v) == v
  {
    if spaces == [] {
      assert spaces + v == v;
    } else {
      assert (spaces + v)[1..] == spaces[1..] + v;
      TrimStartSpaces(spaces[1..], v);
    }
  }

  lemma {:induction false} TrimEndSpaces(a: string, spaces: string)
    requires AllSpace(spaces)
    requires a == [] || !IsSpace(a[|a| - 1])
    ensures TrimEnd(a + spaces) == a
  {
    if spaces == [] {
      assert a + spaces == a;
    } else {
      var init := spaces[..|spaces| - 1];
      assert (a + spaces)[..|a + spaces| - 1] == a + init;
      TrimEndSpaces(a, init);
    }
  }

  /** What the scraper reads from the review page: the text of the first age rating span, empty when there is none. */
  datatype CsPage = CsPage(ageRatingText: string)

  /**
   * `getRating`: no title or no base URL, no URL, no response or a status
   * other than 200 give `None`; otherwise the age rating of the page.
   */
  function GetRating(kind: string, name: Option<string>, baseUrl: string, fetch: string -> Fetched<CsPage>): (r: Option<Record>)
    ensures !Truthy(name) || baseUrl == [] ==> r.None?
    ensures r.Some? ==> var url := GetCommonSenseUrl(baseUrl, name.value, kind);
      && url.Some?
      && fetch(url.value).Response? && fetch(url.value).status == 200
      && r == ScrapeCommonSensePage(fetch(url.value).page.ageRatingText, url.value)
    ensures Truthy(name) && baseUrl != [] ==> var url := GetCommonSenseUrl(baseUrl, name.value, kind);
      url.Some? && fetch(url.value).Response? && fetch(url.value).status == 200 ==>
        r == ScrapeCommonSensePage(fetch(url.value).page.ageRatingText, url.value)
  {
    if !Truthy(name) || baseUrl == [] then None
    else
      match GetCommonSenseUrl(baseUrl, name.value, kind)
      case None => None
      case Some(targetUrl) =>
        match fetch(targetUrl)
        case NoResponse => None
        case Response(status, page) =>
          if status != 200 then None else ScrapeCommonSensePage(page.ageRatingText, targetUrl)
  }
}
