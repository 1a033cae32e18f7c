/**
 * The Metacritic provider (src/providers/metacritic.js): the page URL, the
 * Metascore and the user score read from the page with their optional review
 * counts, and the guards of `getRating`.
 */
module Metacritic {
  import opened Wrappers
  import opened JsString
  import opened Records
  import opened Decimal
  import UrlFormatter

  const ProviderName := "Metacritic"

  /** Series live under `tv`, everything else under `movie`. */
  function MediaType(kind: string): string { if kind == "series" then "tv" else "movie" }

  /**
   * `getMetacriticUrl`: `None` without a title, without a base URL or when the
   * title leaves an empty slug.
   */
  function GetMetacriticUrl(baseUrl: string, title: string, kind: string): (url: Option<string>)
    ensures url.Some? <==> title != [] && baseUrl != [] && UrlFormatter.FormatTitleForUrlSlug(title) != []
  {
    if title == [] || baseUrl == [] then None
    else
      var slug := UrlFormatter.FormatTitleForUrlSlug(title);
      if slug == [] then None else Some(baseUrl + "/" + MediaType(kind) + "/" + slug)
  }

  /**
   * A URL is the base, the media type, and a non-empty slug of lower-case
   * letters, digits and single hyphens.
   */
  lemma MetacriticUrlShape(baseUrl: string, title: string, kind: string)
    requires GetMetacriticUrl(baseUrl, title, kind).Some?
    ensures var url := GetMetacriticUrl(baseUrl, title, kind).value;
      var prefix := baseUrl + "/" + MediaType(kind) + "/";
      && |url| > |prefix| && url[..|prefix|] == prefix
      && UrlFormatter.IsSlug(url[|prefix|..])
  {
    var slug := UrlFormatter.FormatTitleForUrlSlug(title);
    UrlFormatter.SlugCharset(title);
    var prefix := baseUrl + "/" + MediaType(kind) + "/";
    assert GetMetacriticUrl(baseUrl, title, kind).value == prefix + slug;
  }

  /**
   * The Metascore: the trimmed text must be `^\d+$`; its `parseInt` value is
   * kept when it is at most 100.
   */
  function CriticScore(text: string): (score: Option<nat>)
    ensures score.Some? ==> score.value <= 100 && ParseInt(Trim(text)) == Some(score.value)
  {
    var t := Trim(text);
    if t != [] && AllDigits(t) then
      ParseIntDigits(t);
      if DigitsValue(t) <= 100 then Some(DigitsValue(t)) else None
    else None
  }

  /** A score printed as `String(n)` reads back as `n` exactly when it is at most 100. */
  lemma CriticScoreRoundTrip(n: nat)
    ensures CriticScore(NatToString(n)) == if n <= 100 then Some(n) else None
  {
    CriticScoreOfDigits(NatToString(n));
  }

  /** Leading zeros do not change the score: "085" is 85. */
  lemma CriticScoreLeadingZero(s: string)
    requires s != [] && AllDigits(s)
    ensures CriticScore("0" + s) == CriticScore(s)
  {
    var z := "0" + s;
    LeadingZeroDigits(s);
    CriticScoreOfDigits(z);
    CriticScoreOfDigits(s);
  }

  lemma CriticScoreOfDigits(t: string)
    requires t != [] && AllDigits(t)
    ensures CriticScore(t) == if DigitsValue(t) <= 100 then Some(DigitsValue(t)) else None
  {
    assert IsDigit(t[0]) && IsDigit(t[|t| - 1]);
    TrimUnchanged(t);
  }

  lemma LeadingZeroDigits(s: string)
    requires AllDigits(s)
    ensures AllDigits("0" + s) && DigitsValue("0" + s) == DigitsValue(s)
  {
    DigitsValueConcat("0", s);
    assert DigitsValue("0") == 0 by { assert "0"[..0] == []; }
  }

  /** The lower-case form of the fixed text the count pattern opens with. */
  const BasedOn := "based on "

  /**
   * The count captured by `/Based on (\d+) <word>/i` when the match starts
   * at position `p`. Letters compare without case. The digit run is taken
   * whole: a shorter run would leave a digit where the pattern needs the
   * space, so the greedy match never backtracks into it.
   */
  function CountAt(text: string, p: nat, word: string): (count: Option<nat>)
    requires p <= |text|
  {
    var rest := text[p..];
    if |rest| < |BasedOn| || !EqualsIgnoringCase(rest[..|BasedOn|], BasedOn) then None
    else
      var digits := TakeWhile(rest[|BasedOn|..], IsDigit);
      var after := rest[|BasedOn| + |digits|..];
      var tail := " " + word;
      if digits != [] && |after| >= |tail| && EqualsIgnoringCase(after[..|tail|], tail)
      then Some(DigitsValue(digits))
      else None
  }

  /**
   * `text.match(…)` searching from position `p`: the first position where
   * the pattern matches, `None` when it matches nowhere.
   */
  function FindMatch(text: string, word: string, p: nat): (q: Option<nat>)
    requires p <= |text|
    ensures q.None? ==> forall k :: p <= k <= |text| ==> CountAt(text, k, word).None?
    ensures q.Some? ==>
      && p <= q.value <= |text|
      && CountAt(text, q.value, word).Some?
      && forall k :: p <= k < q.value ==> CountAt(text, k, word).None?
    decreases |text| - p
  {
    if CountAt(text, p, word).Some? then Some(p)
    else if p == |text| then None
    else FindMatch(text, word, p + 1)
  }

  /** The optional review count: the pattern searched in the trimmed text of the count element. */
  function ReviewCount(text: string, word: string): (count: Option<nat>)
    ensures count.None? <==> forall k :: 0 <= k <= |Trim(text)| ==> CountAt(Trim(text), k, word).None?
  {
    var t := Trim(text);
    match FindMatch(t, word, 0)
    case None => None
    case Some(q) => CountAt(t, q, word)
  }

  /** "Based on <n> <word>…" gives back `n`. */
  lemma ReviewCountRoundTrip(n: nat, word: string, more: string)
    requires word != [] && !IsSpace(word[|word| - 1])
    requires more == [] || !IsSpace(more[|more| - 1])
    ensures ReviewCount("Based on " + NatToString(n) + " " + word + more, word) == Some(n)
  {
    CountTextTrimmed(NatToString(n), word, more);
    CountAtStart(NatToString(n), word, more);
    ReviewCountAtStart("Based on " + NatToString(n) + " " + word + more, word, n);
  }

  lemma ReviewCountAtStart(text: string, word: string, n: nat)
    requires Trim(text) == text
    requires CountAt(text, 0, word) == Some(n)
    ensures ReviewCount(text, word) == Some(n)
  {
    assert FindMatch(text, word, 0) == Some(0);
  }

  lemma CountTextTrimmed(digits: string, word: string, more: string)
    requires word != [] && !IsSpace(word[|word| - 1])
    requires more == [] || !IsSpace(more[|more| - 1])
    ensures var text := "Based on " + digits + " " + word + more; Trim(text) == text
  {
    var text := "Based on " + digits + " " + word + more;
    assert !IsSpace(text[0]) by { assert text[0] == 'B'; }
    assert !IsSpace(text[|text| - 1]) by {
      if more == [] {
        assert text[|text| - 1] == word[|word| - 1];
      } else {
        assert text[|text| - 1] == more[|more| - 1];
      }
    }
    TrimUnchanged(text);
  }

  lemma CountAtStart(digits: string, word: string, more: string)
    requires digits != [] && AllDigits(digits)
    ensures var text := "Based on " + digits + " " + word + more;
      CountAt(text, 0, word) == Some(DigitsValue(digits))
  {
    var after := " " + word + more;
    var text := "Based on " + digits + after;
    assert text == "Based on " + digits + " " + word + more;
    assert text[0..] == text;
    assert text[..|BasedOn|] == "Based on ";
    assert text[|BasedOn|..] == digits + after;
    TakeDigitsStop(digits, after);
    assert text[|BasedOn| + |digits|..] == after;
    assert after[..|word| + 1] == " " + word;
  }

  /**
   * The user score: the trimmed text must be `^\d+(\.\d+)?$` and at most ten;
   * it is printed back as the number it denotes. Anything else, `tbd`
   * included, gives nothing.
   */
  function UserScore(text: string): (score: Option<string>)
  {
    var t := Trim(text);
    if IsDecimal(t) && AtMostTen(t) then Some(NumberText(t)) else None
  }

  /**
   * An accepted user score is a decimal of at most ten, already in printed
   * form, denoting the same number as the page's text.
   */
  lemma UserScorePrinted(text: string)
    requires UserScore(text).Some?
    ensures var t := Trim(text); var v := UserScore(text).value;
      && IsDecimal(t) && IsDecimal(v)
      && AtMostTen(v) && NumberText(v) == v
      && |FractionPart(v)| <= |FractionPart(t)|
      && Scaled(t) == Scaled(v) * Pow10(|FractionPart(t)| - |FractionPart(v)|)
  {
    var t := Trim(text);
    assert IsDecimal(t) && AtMostTen(t);
    assert UserScore(text).value == NumberText(t);
    PrintedDecimal(t);
  }

  lemma PrintedDecimal(t: string)
    requires IsDecimal(t) && AtMostTen(t)
    ensures var v := NumberText(t);
      && IsDecimal(v) && AtMostTen(v) && NumberText(v) == v
      && |FractionPart(v)| <= |FractionPart(t)|
      && Scaled(t) == Scaled(v) * Pow10(|FractionPart(t)| - |FractionPart(v)|)
  {
    AtMostTenPrinted(t);
    NumberTextIdempotent(t);
    NumberTextValue(t);
  }

  /** A printed user score reads back as itself. */
  lemma UserScoreRoundTrip(d: string)
    requires IsDecimal(d) && AtMostTen(d)
    ensures UserScore(NumberText(d)) == Some(NumberText(d))
  {
    var v := NumberText(d);
    AtMostTenPrinted(d);
    NumberTextIdempotent(d);
    DecimalTrimmed(v);
  }

  lemma DecimalTrimmed(d: string)
    requires IsDecimal(d)
    ensures Trim(d) == d
  {
    assert IsDigit(d[0]);
    var w := WholePart(d);
    assert IsDigit(d[|d| - 1]) by {
      if w != d {
        assert d[|d| - 1] == d[|w| + 1..][|d| - |w| - 2];
      }
    }
    TrimUnchanged(d);
  }

  /**
   * What the scraper reads from the page: the text of the first score span
   * and the text of the count spans of each section, empty when absent.
   */
  datatype McPage = McPage(
    criticScoreText: string,
    criticCountText: string,
    userScoreText: string,
    userCountText: string)

  /** The Metascore record, when the Metascore is accepted. */
  function CriticRecords(score: Option<nat>, count: Option<nat>, url: string): seq<Record>
  {
    if score.Some? then [Record("MC", NatToString(score.value) + "/100", Some(url), Some("Critics"), count)] else []
  }

  /** The user score record, when the user score is accepted. */
  function UserRecords(score: Option<string>, count: Option<nat>, url: string): seq<Record>
  {
    if score.Some? then [Record("MC Users", score.value + "/10", Some(url), Some("Users"), count)] else []
  }

  /** The Metascore record, then the user score record; `None` when neither score is accepted. */
  function Ratings(critic: Option<nat>, criticCount: Option<nat>, user: Option<string>, userCount: Option<nat>, url: string)
    : Option<seq<Record>>
  {
    var ratings := CriticRecords(critic, criticCount, url) + UserRecords(user, userCount, url);
    if ratings == [] then None else Some(ratings)
  }

  /** The ratings of a page: its scores and counts as read, assembled. */
  function PageRatings(page: McPage, url: string): Option<seq<Record>>
  {
    Ratings(
      CriticScore(page.criticScoreText), ReviewCount(page.criticCountText, "Critic"),
      UserScore(page.userScoreText), ReviewCount(page.userCountText, "User"),
      url)
  }

  /**
   * `scrapeMetacriticPage`: push the Metascore record, then the user score
   * record, each only when its score is accepted.
   */
  method ScrapeMetacriticPage(page: McPage, url: string) returns (r: Option<seq<Record>>)
    ensures r == PageRatings(page, url)
  {
    var criticScore := CriticScore(page.criticScoreText);
    var criticCount := ReviewCount(page.criticCountText, "Critic");
    var userScore := UserScore(page.userScoreText);
    var userCount := ReviewCount(page.userCountText, "User");
    r := PushRatings(criticScore, criticCount, userScore, userCount, url);
  }

  /**
   * The pushes themselves, once the scores and counts are read: the Metascore
   * record, then the user score record, each only when its score is accepted;
   * `null` when nothing was pushed.
   */
  method PushRatings(critic: Option<nat>, criticCount: Option<nat>, user: Option<string>, userCount: Option<nat>, url: string)
    returns (r: Option<seq<Record>>)
    ensures r == Ratings(critic, criticCount, user, userCount, url)
  {
    var ratings: seq<Record> := [];
    if critic.Some? {
      ratings := ratings + [Record("MC", NatToString(critic.value) + "/100", Some(url), Some("Critics"), criticCount)];
    }
    ghost var critics := ratings;
    assert critics == CriticRecords(critic, criticCount, url);
    if user.Some? {
      ratings := ratings + [Record("MC Users", user.value + "/10", Some(url), Some("Users"), userCount)];
    }
    assert ratings == critics + UserRecords(user, userCount, url);
    if |ratings| == 0 {
      return None;
    }
    return Some(ratings);
  }

  /**
   * The ratings are one record per accepted score, the Metascore first, each
   * pointing at the scraped URL; there are none exactly when neither score
   * is accepted.
   */
  lemma RatingsShape(critic: Option<nat>, criticCount: Option<nat>, user: Option<string>, userCount: Option<nat>, url: string)
    ensures var r := Ratings(critic, criticCount, user, userCount, url);
      && (r.None? <==> critic.None? && user.None?)
      && (r.Some? ==>
          && |r.value| == (if critic.Some? then 1 else 0) + (if user.Some? then 1 else 0)
          && (forall i :: 0 <= i < |r.value| ==> r.value[i].url == Some(url))
          && (critic.Some? ==> r.value[0] == Record("MC", NatToString(critic.value) + "/100", Some(url), Some("Critics"), criticCount))
          && (user.Some? ==> r.value[|r.value| - 1] == Record("MC Users", user.value + "/10", Some(url), Some("Users"), userCount)))
  {
  }

  /**
   * A page showing a Metascore `n` and a printed user score gives those two
   * scores back, out of 100 and out of 10.
   */
  lemma MetacriticReadsBack(n: nat, d: string, counts: McPage, url: string)
    requires n <= 100 && IsDecimal(d) && AtMostTen(d)
    ensures var page := McPage(NatToString(n), counts.criticCountText, NumberText(d), counts.userCountText);
      && PageRatings(page, url).Some?
      && |PageRatings(page, url).value| == 2
      && PageRatings(page, url).value[0].value == NatToString(n) + "/100"
      && PageRatings(page, url).value[1].value == NumberText(d) + "/10"
  {
    var page := McPage(NatToString(n), counts.criticCountText, NumberText(d), counts.userCountText);
    CriticScoreRoundTrip(n);
    UserScoreRoundTrip(d);
    var cc := ReviewCount(counts.criticCountText, "Critic");
    var uc := ReviewCount(counts.userCountText, "User");
    assert PageRatings(page, url) == Ratings(Some(n), cc, Some(NumberText(d)), uc, url);
    RatingsShape(Some(n), cc, Some(NumberText(d)), uc, url);
  }

  /** A user score of `tbd`, in any case, is ignored: the page reads as if the user section were empty. */
  lemma TbdIgnored(page: McPage, url: string)
    requires EqualsIgnoringCase(Trim(page.userScoreText), "tbd")
    ensures PageRatings(page, url) == PageRatings(page.(userScoreText := []), url)
  {
    var t := Trim(page.userScoreText);
    assert |t| == 3 && LowerChar(t[0]) == 't';
    assert !IsDigit(t[0]);
    assert !IsDecimal(t);
    assert !IsDecimal(Trim([])) by { assert Trim([]) == []; }
  }

  /**
   * `getRating`: no title or no base URL, no URL, no response or a status
   * other than 200 give `None`; otherwise the page's ratings.
   */
  method GetRating(kind: string, name: Option<string>, baseUrl: string, fetch: string -> Fetched<McPage>)
    returns (r: Option<seq<Record>>)
    ensures !Truthy(name) || baseUrl == [] ==> r.None?
    ensures r.Some? ==> var url := GetMetacriticUrl(baseUrl, name.value, kind);
      && url.Some?
      && fetch(url.value).Response? && fetch(url.value).status == 200
      && r == PageRatings(fetch(url.value).page, url.value)
    ensures Truthy(name) && baseUrl != [] ==> var url := GetMetacriticUrl(baseUrl, name.value, kind);
      url.Some? && fetch(url.value).Response? && fetch(url.value).status == 200 ==> r == PageRatings(fetch(url.value).page, url.value)
  {
    if !Truthy(name) {
      return None;
    }
    if baseUrl == [] {
      return None;
    }
    var targetUrl := GetMetacriticUrl(baseUrl, name.value, kind);
    if targetUrl.None? {
      return None;
    }
    var response := fetch(targetUrl.value);
    if response.NoResponse? || response.status != 200 {
      return None;
    }
    r := ScrapeMetacriticPage(response.page, targetUrl.value);
  }
}
