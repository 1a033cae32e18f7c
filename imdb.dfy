/**
 * The IMDb provider (src/providers/imdb.js): the title URL built from the base
 * id, and the reading of the rating text scraped from the title page.
 */
module Imdb {
  import opened Wrappers
  import opened JsString
  import opened Records
  import opened Decimal

  const ProviderName := "IMDb"

  /**
   * `text.match(/^(\d+(\.\d+)?)/)[1]`: the leading digits, with a point and
   * the digits after it when at least one follows; `None` when the text does
   * not start with a digit.
   */
  function LeadingNumber(text: string): (m: Option<string>)
    ensures m.None? <==> text == [] || !IsDigit(text[0])
    ensures m.Some? ==> IsDecimal(m.value) && StartsWith(text, m.value)
  {
    var whole := WholePart(text);
    if whole == [] then None
    else
      var rest := text[|whole|..];
      var frac := if rest != [] && rest[0] == '.' then TakeWhile(rest[1..], IsDigit) else [];
      if frac == [] then
        TakeAllDigits(whole);
        Some(whole)
      else
        NumberWithFraction(text, whole, rest, frac);
        Some(whole + "." + frac)
  }

  /** Digits, a point and the digits after it, at the start of the text, form a decimal. */
  lemma NumberWithFraction(text: string, whole: string, rest: string, frac: string)
    requires whole != [] && whole == WholePart(text) && rest == text[|whole|..]
    requires rest != [] && rest[0] == '.'
    requires frac != [] && frac == TakeWhile(rest[1..], IsDigit)
    ensures IsDecimal(whole + "." + frac) && StartsWith(text, whole + "." + frac)
  {
    var m := whole + "." + frac;
    assert m == whole + ("." + frac);
    TakeDigitsStop(whole, "." + frac);
    assert m[|whole| + 1..] == frac;
    assert m == text[..|m|];
  }
  /** The match is the longest prefix of the text that is a decimal. */
  lemma LeadingNumberLongest(text: string, j: nat)
    requires LeadingNumber(text).Some?
    requires |LeadingNumber(text).value| < j <= |text|
    ensures !IsDecimal(text[..j])
  {
    var m := LeadingNumber(text).value;
    var whole := WholePart(text);
    var rest := text[|whole|..];
    assert |m| >= |whole|;
    var t := text[..j];
    assert !IsDigit(text[|whole|]);
    assert t == whole + t[|whole|..];
    TakeDigitsStop(whole, t[|whole|..]);
    if IsDecimal(t) {
      assert t[|whole|] == '.' && AllDigits(t[|whole| + 1..]);
      assert rest != [] && rest[0] == '.';
      TakeDigitsLongest(rest[1..], j - |whole| - 1);
      assert false;
    }
  }

  /** A decimal followed by anything that cannot continue it is matched exactly. */
  lemma LeadingNumberOf(d: string, rest: string)
    requires IsDecimal(d)
    requires rest == [] || (!IsDigit(rest[0]) && rest[0] != '.')
    ensures LeadingNumber(d + rest) == Some(d)
  {
    var w := WholePart(d);
    if w == d {
      LeadingWholeOf(d, rest);
    } else {
      var f := d[|w| + 1..];
      assert d == w + "." + f;
      LeadingFractionOf(w, f, rest);
    }
  }

  lemma LeadingWholeOf(w: string, rest: string)
    requires w != [] && AllDigits(w)
    requires rest == [] || (!IsDigit(rest[0]) && rest[0] != '.')
    ensures LeadingNumber(w + rest) == Some(w)
  {
    var text := w + rest;
    if rest == [] {
      assert text == w;
      TakeAllDigits(w);
    } else {
      TakeDigitsStop(w, rest);
      assert text[|w|..] == rest;
    }
  }

  lemma LeadingFractionOf(w: string, f: string, rest: string)
    requires w != [] && AllDigits(w) && f != [] && AllDigits(f)
    requires rest == [] || !IsDigit(rest[0])
    ensures LeadingNumber(w + "." + f + rest) == Some(w + "." + f)
  {
    var text := w + "." + f + rest;
    var tail := "." + f + rest;
    assert text == w + tail;
    TakeDigitsStop(w, tail);
    assert text[|w|..] == tail;
    assert tail[1..] == f + rest;
    DigitsThenStop(f, rest);
  }

  lemma DigitsThenStop(f: string, rest: string)
    requires AllDigits(f)
    requires rest == [] || !IsDigit(rest[0])
    ensures TakeWhile(f + rest, IsDigit) == f
  {
    if rest == [] {
      assert f + rest == f;
      TakeAllDigits(f);
    } else {
      TakeDigitsStop(f, rest);
    }
  }

  /**
   * `scrapeIMDbPage` on the trimmed text of the score span: no text or no
   * leading number gives `None`, so does a number above ten; otherwise the
   * matched number, verbatim, out of ten.
   */
  function ScrapeImdbPage(ratingText: string, url: string): (r: Option<Record>)
    ensures r.Some? <==> LeadingNumber(Trim(ratingText)).Some? && AtMostTen(LeadingNumber(Trim(ratingText)).value)
    ensures r.Some? ==> r.value == Record(ProviderName, LeadingNumber(Trim(ratingText)).value + "/10", Some(url), None, None)
  {
    var text := Trim(ratingText);
    if text == [] then None
    else
      match LeadingNumber(text)
      case None => None
      case Some(ratingValue) =>
        if AtMostTen(ratingValue) then Some(Record(ProviderName, ratingValue + "/10", Some(url), None, None)) else None
  }

  /** Text that reads "<n>/10" gives back "<n>/10" when n is at most ten, and nothing otherwise. */
  lemma ImdbReadsDecimal(d: string, url: string)
    requires IsDecimal(d)
    ensures ScrapeImdbPage(d + "/10", url) == if AtMostTen(d) then Some(Record(ProviderName, d + "/10", Some(url), None, None)) else None
  {
    SlashTenMatch(d);
    DecimalTrimmed(d, "/10");
    ScrapeOfMatch(d + "/10", d, url);
  }

  lemma SlashTenMatch(d: string)
    requires IsDecimal(d)
    ensures LeadingNumber(d + "/10") == Some(d)
  {
    var rest := "/10";
    assert rest[0] == '/';
    LeadingNumberOf(d, rest);
  }

  lemma ScrapeOfMatch(text: string, d: string, url: string)
    requires Trim(text) == text
    requires LeadingNumber(text) == Some(d)
    ensures ScrapeImdbPage(text, url) == if AtMostTen(d) then Some(Record(ProviderName, d + "/10", Some(url), None, None)) else None
  {
  }

  /** The bare number reads the same as the number followed by "/10". */
  lemma ImdbBareDecimal(d: string, url: string)
    requires IsDecimal(d)
    ensures ScrapeImdbPage(d, url) == ScrapeImdbPage(d + "/10", url)
  {
    assert d + [] == d;
    DecimalTrimmed(d, []);
    LeadingNumberOf(d, []);
    ScrapeOfMatch(d, d, url);
    ImdbReadsDecimal(d, url);
  }

  lemma DecimalTrimmed(d: string, rest: string)
    requires IsDecimal(d)
    requires rest == [] || rest == "/10"
    ensures Trim(d + rest) == d + rest
  {
    var s := d + rest;
    assert IsDigit(s[0]);
    assert IsDigit(s[|s| - 1]) by {
      if rest == [] {
        var w := WholePart(d);
        if w != d {
          assert d[|d| - 1] == d[|w| + 1..][|d| - |w| - 2];
        }
      }
    }
    TrimUnchanged(s);
  }

  /** What the scraper reads from the title page: the text of the first score span, empty when there is none. */
  datatype ImdbPage = ImdbPage(ratingText: string)

  /** `${BASE_URL}/title/${baseImdbId}/` with the id cut at its first ':'. */
  function TitleUrl(baseUrl: string, imdbId: string): string
  {
    baseUrl + "/title/" + Before(imdbId, ':') + "/"
  }

  /** An episode id "tt…:season:episode" targets the page of its series. */
  lemma TitleUrlOfEpisode(baseUrl: string, baseId: string, suffix: string)
    requires ':' !in baseId
    requires suffix == [] || suffix[0] == ':'
    ensures TitleUrl(baseUrl, baseId + suffix) == baseUrl + "/title/" + baseId + "/"
  {
    if suffix == [] {
      assert baseId + suffix == baseId;
      BeforeAbsent(baseId, ':');
    } else {
      BeforeStop(baseId, suffix, ':');
    }
  }

  /** `getRating`: no base URL, no response or a status other than 200 give `None`. */
  function GetRating(imdbId: string, baseUrl: string, fetch: string -> Fetched<ImdbPage>): (r: Option<Record>)
    ensures baseUrl == [] ==> r.None?
    ensures var url := TitleUrl(baseUrl, imdbId);
      baseUrl != [] && (fetch(url).NoResponse? || fetch(url).status != 200) ==> r.None?
    ensures var url := TitleUrl(baseUrl, imdbId);
      baseUrl != [] && fetch(url).Response? && fetch(url).status == 200 ==>
        r == ScrapeImdbPage(fetch(url).page.ratingText, url)
  {
    if baseUrl == [] then None
    else
      var targetUrl := TitleUrl(baseUrl, imdbId);
      match fetch(targetUrl)
      case NoResponse => None
      case Response(status, page) => if status != 200 then None else ScrapeImdbPage(page.ratingText, targetUrl)
  }
}
