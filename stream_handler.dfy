/**
 * The stream handler (src/handlers/streamHandler.js): for a title id it asks
 * the rating service for the ratings and answers with one pseudo-stream whose
 * description lists them, or with no stream at all. The service's reply is an
 * input.
 */
module StreamHandler {
  import opened Wrappers
  import opened JsString
  import opened Records
  import Imdb

  /** The line that opens and closes the description: fifteen box-drawing dashes. */
  const Separator: string := "\U{2500}\U{2500}\U{2500}\U{2500}\U{2500}\U{2500}\U{2500}\U{2500}\U{2500}\U{2500}\U{2500}\U{2500}\U{2500}\U{2500}\U{2500}"

  /** The chart emoji, for a source without one of its own. */
  const DefaultEmoji := "\U{1F4CA}"

  /** The emoji of each source the description knows. */
  const EmojiMap: map<string, string> := map[
    "TMDb" := "\U{1F3A5}",
    "IMDb" := "\U{2B50}",
    "MC" := "\U{24C2}\U{FE0F}",
    "MC Users" := "\U{1F464}",
    "Rotten Tomatoes" := "\U{1F345}",
    "Letterboxd" := "\U{1F4DD}",
    "Common Sense" := "\U{1F476}",
    "CringeMDB" := "\U{26A0}\U{FE0F}",
    "Certification" := "\U{2705}"]

  /** The title of the stream. */
  const StreamName := DefaultEmoji + " Ratings PRO"

  /** The sources that get a score line, in the order their lines appear. */
  const ScoreSources: seq<string> := ["IMDb", "TMDb", "MC", "MC Users"]

  /** The width source names are padded to on a score line. */
  const SourceWidth: nat := 9

  /** `getEmojiForSource`: the source's own emoji, or the chart emoji. */
  function GetEmojiForSource(source: string): (e: string)
    ensures e == DefaultEmoji <==> source !in EmojiMap
    ensures source in EmojiMap ==> e == EmojiMap[source]
  {
    if source in EmojiMap then EmojiMap[source] else DefaultEmoji
  }

  /** No two known sources share an emoji, so the emoji names the source. */
  lemma EmojiNamesSource(a: string, b: string)
    requires a in EmojiMap && b in EmojiMap
    requires GetEmojiForSource(a) == GetEmojiForSource(b)
    ensures a == b
  {
  }

  /** `ratings.find(…)`: the first record whose source is one of `names`. */
  function Find(rs: seq<Record>, names: set<string>): (r: Option<Record>)
    ensures r.None? <==> forall i :: 0 <= i < |rs| ==> rs[i].source !in names
    ensures r.Some? ==> exists i :: 0 <= i < |rs| && rs[i] == r.value && rs[i].source in names &&
                          forall j :: 0 <= j < i ==> rs[j].source !in names
  {
    if rs == [] then None
    else if rs[0].source in names then Some(rs[0])
    else
      var r := Find(rs[1..], names);
      assert forall i :: 1 <= i < |rs| ==> rs[i] == rs[1..][i - 1];
      r
  }

  /** The records with a given source, in their order. */
  function BySource(rs: seq<Record>, s: string): (out: seq<Record>)
    ensures |out| <= |rs|
  {
    if rs == [] then []
    else BySource(rs[..|rs| - 1], s) + (if rs[|rs| - 1].source == s then [rs[|rs| - 1]] else [])
  }

  /** `ratings.filter(…)`: the records of the four score sources, in their order. */
  function Scores(rs: seq<Record>): (out: seq<Record>)
    ensures |out| <= |rs|
  {
    if rs == [] then []
    else Scores(rs[..|rs| - 1]) + (if rs[|rs| - 1].source in ScoreSources then [rs[|rs| - 1]] else [])
  }

  /** `order.indexOf(source)`. */
  function Rank(source: string): int
  {
    if source == "IMDb" then 0
    else if source == "TMDb" then 1
    else if source == "MC" then 2
    else if source == "MC Users" then 3
    else -1
  }

  /**
   * The score records after the stable sort by rank: the IMDb records, then
   * TMDb, MC and MC Users, each group in its original order.
   */
  function SortedScores(rs: seq<Record>): seq<Record>
  {
    BySource(rs, "IMDb") + BySource(rs, "TMDb") + BySource(rs, "MC") + BySource(rs, "MC Users")
  }

  /** Every record of `s` has a rank between `lo` and `hi`, and the ranks never go down. */
  predicate Ranked(s: seq<Record>, lo: int, hi: int)
  {
    && (forall i :: 0 <= i < |s| ==> lo <= Rank(s[i].source) <= hi)
    && (forall i, j :: 0 <= i < j < |s| ==> Rank(s[i].source) <= Rank(s[j].source))
  }

  lemma {:induction false} BySourceSources(rs: seq<Record>, s: string)
    ensures forall i :: 0 <= i < |BySource(rs, s)| ==> BySource(rs, s)[i].source == s
  {
    if rs != [] {
      BySourceSources(rs[..|rs| - 1], s);
    }
  }

  lemma AppendRanked(a: seq<Record>, b: seq<Record>, lo: int, mid: int, hi: int)
    requires lo <= mid <= hi
    requires Ranked(a, lo, mid) && Ranked(b, mid, hi)
    ensures Ranked(a + b, lo, hi)
  {
    forall i | 0 <= i < |a + b|
      ensures lo <= Rank((a + b)[i].source) <= hi
    {
      if i < |a| {
        assert (a + b)[i] == a[i];
      } else {
        assert (a + b)[i] == b[i - |a|];
      }
    }
    forall i, j | 0 <= i < j < |a + b|
      ensures Rank((a + b)[i].source) <= Rank((a + b)[j].source)
    {
      if j < |a| {
        assert (a + b)[i] == a[i] && (a + b)[j] == a[j];
      } else if i < |a| {
        assert (a + b)[i] == a[i] && (a + b)[j] == b[j - |a|];
      } else {
        assert (a + b)[i] == b[i - |a|] && (a + b)[j] == b[j - |a|];
      }
    }
  }

  lemma GroupRanked(rs: seq<Record>, s: string, k: int)
    requires Rank(s) == k
    ensures Ranked(BySource(rs, s), k, k)
  {
    BySourceSources(rs, s);
  }

  /** The sort puts the score records in the order IMDb, TMDb, MC, MC Users. */
  lemma SortedScoresOrdered(rs: seq<Record>)
    ensures Ranked(SortedScores(rs), 0, 3)
  {
    var a, b, c, d := BySource(rs, "IMDb"), BySource(rs, "TMDb"), BySource(rs, "MC"), BySource(rs, "MC Users");
    GroupRanked(rs, "IMDb", 0);
    GroupRanked(rs, "TMDb", 1);
    GroupRanked(rs, "MC", 2);
    GroupRanked(rs, "MC Users", 3);
    AppendRanked(a, b, 0, 1, 1);
    AppendRanked(a + b, c, 0, 2, 2);
    AppendRanked(a + b + c, d, 0, 3, 3);
  }

  /** The records of one source gain the last record exactly when it has that source. */
  lemma BySourceStep(rs: seq<Record>, s: string)
    requires rs != []
    ensures multiset(BySource(rs, s)) == multiset(BySource(rs[..|rs| - 1], s))
      + (if rs[|rs| - 1].source == s then multiset{rs[|rs| - 1]} else multiset{})
  {
  }

  lemma SortedMultiset(rs: seq<Record>)
    ensures multiset(SortedScores(rs)) == multiset(BySource(rs, "IMDb")) + multiset(BySource(rs, "TMDb"))
      + multiset(BySource(rs, "MC")) + multiset(BySource(rs, "MC Users"))
  {
    var a, b, c, d := BySource(rs, "IMDb"), BySource(rs, "TMDb"), BySource(rs, "MC"), BySource(rs, "MC Users");
    assert SortedScores(rs) == a + b + c + d;
  }

  /** The filtered records are the four groups of score records, as a multiset. */
  lemma {:induction false} ScoresMultiset(rs: seq<Record>)
    ensures multiset(Scores(rs)) == multiset(BySource(rs, "IMDb")) + multiset(BySource(rs, "TMDb"))
      + multiset(BySource(rs, "MC")) + multiset(BySource(rs, "MC Users"))
  {
    if rs != [] {
      var init, last := rs[..|rs| - 1], rs[|rs| - 1];
      ScoresMultiset(init);
      BySourceStep(rs, "IMDb");
      BySourceStep(rs, "TMDb");
      BySourceStep(rs, "MC");
      BySourceStep(rs, "MC Users");
      ScoresStep(rs);
      LastInOneGroup(last);
      Regroup(multiset(BySource(init, "IMDb")), multiset(BySource(init, "TMDb")),
        multiset(BySource(init, "MC")), multiset(BySource(init, "MC Users")),
        if last.source == "IMDb" then multiset{last} else multiset{},
        if last.source == "TMDb" then multiset{last} else multiset{},
        if last.source == "MC" then multiset{last} else multiset{},
        if last.source == "MC Users" then multiset{last} else multiset{});
    }
  }

  lemma ScoresStep(rs: seq<Record>)
    requires rs != []
    ensures multiset(Scores(rs)) == multiset(Scores(rs[..|rs| - 1]))
      + (if rs[|rs| - 1].source in ScoreSources then multiset{rs[|rs| - 1]} else multiset{})
  {
  }

  /** Adding four parts to four groups, group by group. */
  lemma Regroup(a: multiset<Record>, b: multiset<Record>, c: multiset<Record>, d: multiset<Record>,
                a': multiset<Record>, b': multiset<Record>, c': multiset<Record>, d': multiset<Record>)
    ensures (a + b + c + d) + (a' + b' + c' + d') == (a + a') + (b + b') + (c + c') + (d + d')
  {
  }

  /** A record joins the filtered records exactly when it joins one of the four groups. */
  lemma LastInOneGroup(last: Record)
    ensures (if last.source in ScoreSources then multiset{last} else multiset{})
      == (if last.source == "IMDb" then multiset{last} else multiset{})
      + (if last.source == "TMDb" then multiset{last} else multiset{})
      + (if last.source == "MC" then multiset{last} else multiset{})
      + (if last.source == "MC Users" then multiset{last} else multiset{})
  {
  }

  /** The sort neither loses nor adds a record: it permutes the filtered records. */
  lemma SortedScoresPermutation(rs: seq<Record>)
    ensures multiset(SortedScores(rs)) == multiset(Scores(rs))
  {
    SortedMultiset(rs);
    ScoresMultiset(rs);
  }

  lemma {:induction false} BySourceAppend(a: seq<Record>, b: seq<Record>, s: string)
    ensures BySource(a + b, s) == BySource(a, s) + BySource(b, s)
    decreases |b|
  {
    if b == [] {
      assert a + b == a;
    } else {
      var b' := b[..|b| - 1];
      assert (a + b)[..|a + b| - 1] == a + b';
      assert (a + b)[|a + b| - 1] == b[|b| - 1];
      BySourceAppend(a, b', s);
    }
  }

  lemma {:induction false} BySourceTwice(rs: seq<Record>, x: string, s: string)
    ensures BySource(BySource(rs, x), s) == if x == s then BySource(rs, x) else []
  {
    if rs != [] {
      var init, last := rs[..|rs| - 1], rs[|rs| - 1];
      BySourceTwice(init, x, s);
      var one := if last.source == x then [last] else [];
      BySourceAppend(BySource(init, x), one, s);
      if last.source == x {
        assert one[..0] == [];
      }
    }
  }

  lemma {:induction false} BySourceOfScores(rs: seq<Record>, s: string)
    ensures BySource(Scores(rs), s) == if s in ScoreSources then BySource(rs, s) else []
  {
    if rs != [] {
      var init, last := rs[..|rs| - 1], rs[|rs| - 1];
      BySourceOfScores(init, s);
      var one := if last.source in ScoreSources then [last] else [];
      BySourceAppend(Scores(init), one, s);
      if last.source in ScoreSources {
        assert one[..0] == [];
      }
    }
  }

  /**
   * The sort is stable: the records of any one source keep the order they
   * had among the filtered records.
   */
  lemma SortedScoresStable(rs: seq<Record>, s: string)
    ensures BySource(SortedScores(rs), s) == BySource(Scores(rs), s)
  {
    SortedBySource(rs, s);
    BySourceOfScores(rs, s);
  }

  lemma SortedBySource(rs: seq<Record>, s: string)
    ensures BySource(SortedScores(rs), s) == if s in ScoreSources then BySource(rs, s) else []
  {
    var a, b, c, d := BySource(rs, "IMDb"), BySource(rs, "TMDb"), BySource(rs, "MC"), BySource(rs, "MC Users");
    var a', b', c', d' := BySource(a, s), BySource(b, s), BySource(c, s), BySource(d, s);
    assert BySource(SortedScores(rs), s) == a' + b' + c' + d' by {
      assert SortedScores(rs) == a + b + c + d;
      BySourceAppend(a + b + c, d, s);
      BySourceAppend(a + b, c, s);
      BySourceAppend(a, b, s);
    }
    assert a' == (if s == "IMDb" then a else []) by { BySourceTwice(rs, "IMDb", s); }
    assert b' == (if s == "TMDb" then b else []) by { BySourceTwice(rs, "TMDb", s); }
    assert c' == (if s == "MC" then c else []) by { BySourceTwice(rs, "MC", s); }
    assert d' == (if s == "MC Users" then d else []) by { BySourceTwice(rs, "MC Users", s); }
    if s == "IMDb" {
      assert a' + b' + c' + d' == a;
    } else if s == "TMDb" {
      assert a' + b' + c' + d' == b;
    } else if s == "MC" {
      assert a' + b' + c' + d' == c;
    } else if s == "MC Users" {
      assert a' + b' + c' + d' == d;
    } else {
      assert a' + b' + c' + d' == [];
    }
  }

  /** The line of the first Common Sense record, if there is one. */
  function CommonSenseLines(rs: seq<Record>): (lines: seq<string>)
    ensures |lines| <= 1
  {
    match Find(rs, {"Common Sense"})
    case None => []
    case Some(r) => [GetEmojiForSource(r.source) + " " + r.value]
  }

  /** The line of one score: emoji, padded source, colon, value. */
  function ScoreLine(r: Record): string
  {
    GetEmojiForSource(r.source) + " " + PadEnd(r.source, SourceWidth) + ": " + r.value
  }

  /**
   * The four score sources fit the padding, so on every score line the value
   * starts right after the emoji and a fixed run of eleven characters.
   */
  lemma ScoreLineAligned(r: Record)
    requires r.source in ScoreSources
    ensures var e := GetEmojiForSource(r.source);
      && ScoreLine(r)[..|e|] == e
      && |ScoreLine(r)| == |e| + 12 + |r.value|
      && ScoreLine(r)[|e| + 10..|e| + 12] == ": "
      && ScoreLine(r)[|e| + 12..] == r.value
  {
    var e := GetEmojiForSource(r.source);
    var p := PadEnd(r.source, SourceWidth);
    assert |p| == 9;
    assert ScoreLine(r) == e + (" " + p + ": ") + r.value;
  }

  /** One line per score record, in the given order. */
  function ScoreLines(scores: seq<Record>): (lines: seq<string>)
    ensures |lines| == |scores|
  {
    if scores == [] then [] else ScoreLines(scores[..|scores| - 1]) + [ScoreLine(scores[|scores| - 1])]
  }

  /** The trimmed parts that are not blank. */
  function NonBlank(parts: seq<string>): (lines: seq<string>)
    ensures |lines| <= |parts|
  {
    if parts == [] then [] else NonBlank(parts[..|parts| - 1]) + LineOf(parts[|parts| - 1])
  }

  /** The trimmed part as a line, or no line when it is blank. */
  function LineOf(part: string): seq<string>
  {
    var t := Trim(part);
    if t != [] then [t] else []
  }

  /** The lines of the first CringeMDB or Certification record's value. */
  function CringeLines(rs: seq<Record>): seq<string>
  {
    match Find(rs, {"CringeMDB", "Certification"})
    case None => []
    case Some(r) => NonBlank(Split(r.value, '\n'))
  }

  /** The lines of the description, separators included. */
  function DescriptionLines(rs: seq<Record>): (lines: seq<string>)
    ensures |lines| >= 2 && lines[0] == Separator && lines[|lines| - 1] == Separator
  {
    [Separator] + CommonSenseLines(rs) + ScoreLines(SortedScores(rs)) + CringeLines(rs) + [Separator]
  }

  /** The first Common Sense record, if any, gives the line right after the opening separator. */
  lemma CommonSenseFirst(rs: seq<Record>, i: nat)
    requires i < |rs| && rs[i].source == "Common Sense"
    requires forall j :: 0 <= j < i ==> rs[j].source != "Common Sense"
    ensures DescriptionLines(rs)[1] == "\U{1F476} " + rs[i].value
  {
    var cs := CommonSenseLines(rs);
    assert cs == ["\U{1F476} " + rs[i].value] by {
      FindFirst(rs, {"Common Sense"}, i);
      CommonSenseLine(rs[i]);
    }
    SecondLine(cs, ScoreLines(SortedScores(rs)) + CringeLines(rs) + [Separator]);
  }

  lemma SecondLine(cs: seq<string>, rest: seq<string>)
    requires |cs| == 1
    ensures ([Separator] + cs + rest)[1] == cs[0]
  {
  }

  /** The line of a Common Sense record is the baby emoji and its value. */
  lemma CommonSenseLine(r: Record)
    requires r.source == "Common Sense"
    ensures GetEmojiForSource(r.source) + " " + r.value == "\U{1F476} " + r.value
  {
    assert GetEmojiForSource(r.source) + " " == "\U{1F476} ";
  }

  /** `Find` gives the first record whose source is one of the names. */
  lemma {:induction false} FindFirst(rs: seq<Record>, names: set<string>, i: nat)
    requires i < |rs| && rs[i].source in names
    requires forall j :: 0 <= j < i ==> rs[j].source !in names
    ensures Find(rs, names) == Some(rs[i])
  {
    if i > 0 {
      assert rs[1..][i - 1] == rs[i];
      FindFirst(rs[1..], names, i - 1);
    }
  }

  /** A line as the description shows it: not blank, trimmed, and a single line. */
  predicate CleanLine(line: string)
  {
    line != [] && Trim(line) == line && '\n' !in line
  }

  /** Trimming a part without line breaks gives a clean line unless it is blank. */
  lemma TrimmedPartClean(part: string)
    requires '\n' !in part && Trim(part) != []
    ensures CleanLine(Trim(part))
  {
    var t := Trim(part);
    assert '\n' !in t by {
      TrimChars(part);
    }
    assert Trim(t) == t by {
      TrimUnchanged(t);
    }
  }

  /** Every line taken from a CringeMDB value is trimmed, not blank, and a single line. */
  lemma {:induction false} NonBlankClean(parts: seq<string>)
    requires forall k :: 0 <= k < |parts| ==> '\n' !in parts[k]
    ensures forall k :: 0 <= k < |NonBlank(parts)| ==> CleanLine(NonBlank(parts)[k])
  {
    if parts != [] {
      var init, last := parts[..|parts| - 1], parts[|parts| - 1];
      var t := Trim(last);
      assert forall k :: 0 <= k < |init| ==> init[k] == parts[k];
      NonBlankClean(init);
      var before := NonBlank(init);
      if t != [] {
        TrimmedPartClean(last);
        AppendClean(before, t);
      } else {
        assert NonBlank(parts) == before;
      }
    }
  }

  lemma AppendClean(before: seq<string>, t: string)
    requires forall k :: 0 <= k < |before| ==> CleanLine(before[k])
    requires CleanLine(t)
    ensures forall k :: 0 <= k < |before + [t]| ==> CleanLine((before + [t])[k])
  {
  }

  lemma CringeLinesClean(rs: seq<Record>)
    ensures forall k :: 0 <= k < |CringeLines(rs)| ==> CleanLine(CringeLines(rs)[k])
  {
    var r := Find(rs, {"CringeMDB", "Certification"});
    if r.Some? {
      NonBlankClean(Split(r.value.value, '\n'));
    }
  }

  /** A value without line breaks and not blank shows as its trimmed self. */
  lemma CringeSingleLine(rs: seq<Record>, v: string)
    requires Find(rs, {"CringeMDB", "Certification"}).Some?
    requires Find(rs, {"CringeMDB", "Certification"}).value.value == v
    requires '\n' !in v && Trim(v) != []
    ensures CringeLines(rs) == [Trim(v)]
  {
    SplitNoSeparator(v, '\n');
    assert [v][..0] == [];
  }

  /** The score lines pushed one by one after `lines`. */
  method PushScoreLines(lines: seq<string>, scores: seq<Record>) returns (out: seq<string>)
    ensures out == lines + ScoreLines(scores)
  {
    out := lines;
    var i := 0;
    while i < |scores|
      invariant 0 <= i <= |scores|
      invariant out == lines + ScoreLines(scores[..i])
    {
      var rating := scores[i];
      var before := out;
      out := out + [GetEmojiForSource(rating.source) + " " + PadEnd(rating.source, SourceWidth) + ": " + rating.value];
      ScoreLineStep(lines, scores, i, before, out);
      i := i + 1;
    }
    assert scores[..i] == scores;
  }

  lemma ScoreLineStep(lines: seq<string>, scores: seq<Record>, i: nat, before: seq<string>, after: seq<string>)
    requires i < |scores|
    requires before == lines + ScoreLines(scores[..i])
    requires after == before + [ScoreLine(scores[i])]
    ensures after == lines + ScoreLines(scores[..i + 1])
  {
    assert scores[..i + 1][..i] == scores[..i];
    assert scores[..i + 1][i] == scores[i];
    AppendAssoc(lines, ScoreLines(scores[..i]), [ScoreLine(scores[i])]);
  }

  lemma ValueLineStep(lines: seq<string>, parts: seq<string>, k: nat, before: seq<string>, after: seq<string>)
    requires k < |parts|
    requires before == lines + NonBlank(parts[..k])
    requires after == before + LineOf(parts[k])
    ensures after == lines + NonBlank(parts[..k + 1])
  {
    NonBlankStep(parts, k);
    var done, line := NonBlank(parts[..k]), LineOf(parts[k]);
    AppendAssoc(lines, done, line);
  }

  lemma NonBlankStep(parts: seq<string>, k: nat)
    requires k < |parts|
    ensures NonBlank(parts[..k + 1]) == NonBlank(parts[..k]) + LineOf(parts[k])
  {
    assert parts[..k + 1][..k] == parts[..k];
    assert parts[..k + 1][k] == parts[k];
  }

  /** The non-blank trimmed `parts` (the lines of a value) pushed one by one after `lines`. */
  method PushValueLines(lines: seq<string>, parts: seq<string>) returns (out: seq<string>)
    ensures out == lines + NonBlank(parts)
  {
    out := lines;
    var k := 0;
    while k < |parts|
      invariant 0 <= k <= |parts|
      invariant out == lines + NonBlank(parts[..k])
    {
      var line := Trim(parts[k]);
      var before := out;
      if line != [] {
        out := out + [line];
      }
      ValueLineStep(lines, parts, k, before, out);
      k := k + 1;
    }
    TakeAll(parts);
  }

  /** `formattedLines`, built line by line as the handler pushes them. */
  method FormatLines(ratings: seq<Record>) returns (lines: seq<string>)
    ensures lines == DescriptionLines(ratings)
  {
    lines := [Separator];
    var commonSense := Find(ratings, {"Common Sense"});
    if commonSense.Some? {
      lines := lines + [GetEmojiForSource(commonSense.value.source) + " " + commonSense.value.value];
    }
    assert lines == [Separator] + CommonSenseLines(ratings);
    lines := PushScoreLines(lines, SortedScores(ratings));
    var cringeMdb := Find(ratings, {"CringeMDB", "Certification"});
    if cringeMdb.Some? {
      lines := PushValueLines(lines, Split(cringeMdb.value.value, '\n'));
    }
    assert lines == [Separator] + CommonSenseLines(ratings) + ScoreLines(SortedScores(ratings)) + CringeLines(ratings);
    lines := lines + [Separator];
  }

  /** `id` as received: missing, or a string. */
  predicate ValidId(id: Option<string>)
  {
    id.Some? && StartsWith(id.value, "tt")
  }

  /** What awaiting the service gives: it throws, or returns a list or `null`. */
  datatype ServiceReply = ServiceThrows | ServiceReturns(ratings: Option<seq<Record>>)

  /** The stream object: name, description, external URL, behaviour hints and type. */
  datatype Stream = Stream(
    name: string,
    description: string,
    externalUrl: string,
    notWebReady: bool,
    bingeGroup: string,
    kind: string)

  /** The first IMDb record's link when it is not empty, else the IMDb title page of the base id. */
  function ExternalUrl(rs: seq<Record>, id: string, imdbBaseUrl: string): string
  {
    var imdb := Find(rs, {"IMDb"});
    if imdb.Some? && Truthy(imdb.value.url) then imdb.value.url.value else Imdb.TitleUrl(imdbBaseUrl, id)
  }

  /** The first IMDb record decides the link: its own URL when it has one, else the title page. */
  lemma ExternalUrlOfImdb(rs: seq<Record>, i: nat, id: string, imdbBaseUrl: string)
    requires i < |rs| && rs[i].source == "IMDb"
    requires forall j :: 0 <= j < i ==> rs[j].source != "IMDb"
    ensures ExternalUrl(rs, id, imdbBaseUrl) == if Truthy(rs[i].url) then rs[i].url.value else Imdb.TitleUrl(imdbBaseUrl, id)
  {
    FindFirst(rs, {"IMDb"}, i);
  }

  /** Without an IMDb link, an episode's stream links to its series' title page. */
  lemma ExternalUrlOfEpisode(rs: seq<Record>, baseId: string, suffix: string, imdbBaseUrl: string)
    requires forall i :: 0 <= i < |rs| ==> rs[i].source != "IMDb"
    requires ':' !in baseId
    requires suffix == [] || suffix[0] == ':'
    ensures ExternalUrl(rs, baseId + suffix, imdbBaseUrl) == imdbBaseUrl + "/title/" + baseId + "/"
  {
    assert forall i :: 0 <= i < |rs| ==> rs[i].source !in {"IMDb"};
    Imdb.TitleUrlOfEpisode(imdbBaseUrl, baseId, suffix);
  }

  /** The one stream shown for a non-empty list of ratings. */
  function RatingsStream(rs: seq<Record>, id: string, imdbBaseUrl: string): Stream
  {
    Stream(StreamName, Join(DescriptionLines(rs), "\n"), ExternalUrl(rs, id, imdbBaseUrl), true, "ratings-" + id, "other")
  }

  /**
   * `streamHandler`: no stream for an id that is missing or does not start
   * with "tt", for a service that throws, and for a missing or empty list;
   * otherwise exactly one stream describing the ratings.
   */
  method HandleStream(id: Option<string>, reply: ServiceReply, imdbBaseUrl: string) returns (streams: seq<Stream>)
    ensures !ValidId(id) ==> streams == []
    ensures reply.ServiceThrows? || reply.ratings.None? || reply.ratings.value == [] ==> streams == []
    ensures |streams| <= 1
    ensures streams != [] <==> ValidId(id) && reply.ServiceReturns? && reply.ratings.Some? && reply.ratings.value != []
    ensures streams != [] ==> streams[0] == RatingsStream(reply.ratings.value, id.value, imdbBaseUrl)
  {
    if id.None? || !StartsWith(id.value, "tt") {
      return [];
    }
    match reply
    case ServiceThrows =>
      return [];
    case ServiceReturns(ratings) =>
      if ratings.None? || |ratings.value| == 0 {
        return [];
      }
      var formattedLines := FormatLines(ratings.value);
      var stream := Stream(
        StreamName,
        Join(formattedLines, "\n"),
        ExternalUrl(ratings.value, id.value, imdbBaseUrl),
        true,
        "ratings-" + id.value,
        "other");
      return [stream];
  }
}
