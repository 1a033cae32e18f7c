/**
 * The aggregation service (src/services/ratingService.js): a cache-first
 * lookup, then every active provider asked once, the records each returns
 * normalised and concatenated in the order the providers are listed, and the
 * non-empty result written back to the cache.
 *
 * The providers, the metadata resolvers and the cache are outside the model:
 * what each provider's promise settles to, whether a resolver throws, and
 * what the cache read yields are inputs.
 */
module RatingService {
  import opened Wrappers
  import opened JsString
  import opened Records

  /** Prefix of every cache key. */
  const CachePrefix := "ratings:"

  /** The names of the active providers, in the order they are listed. */
  const ActiveProviders: seq<string> := ["IMDb", "TMDb", "Metacritic", "Common Sense", "CringeMDB"]

  /** The providers that need the title and year of the stream. */
  const StreamInfoProviders: seq<string> := ["Metacritic", "Common Sense", "CringeMDB"]

  /**
   * A rating object as a provider returns it: any field may be missing; the
   * `count` some providers add is the only other field the service sees.
   */
  datatype RawRating = RawRating(
    source: Option<string>,
    value: Option<string>,
    url: Option<string>,
    kind: Option<string>,
    count: Option<nat>)

  /** What a provider resolves to when it is not `null`: one object or an array (whose items may be `null`). */
  datatype RatingData = Single(rating: RawRating) | List(items: seq<Option<RawRating>>)

  /** How a provider's promise settles: a value (`None` for `null`) or a rejection. */
  datatype Outcome = Resolved(data: Option<RatingData>) | Rejected

  /** What awaiting the cache read gives: it throws, or yields data (`None` when falsy). */
  datatype CacheRead = ReadThrows | ReadResult(cached: Option<seq<Record>>)

  /** The cache write the service attempts: key, list and TTL. */
  datatype CacheWrite = CacheWrite(key: string, ratings: seq<Record>, ttlSeconds: nat)

  /** A `url` or `type` after `x || null`: an empty string becomes `null`. */
  function OrNull(s: Option<string>): (r: Option<string>)
    ensures r.Some? <==> Truthy(s)
    ensures r.Some? ==> r == s
  {
    if Truthy(s) then s else None
  }

  /** No white space at either end: what trimming leaves, and what trimming leaves unchanged. */
  predicate Unpadded(s: string)
  {
    s == [] || (!IsSpace(s[0]) && !IsSpace(s[|s| - 1]))
  }

  /** A record as the service hands it on: a source, a trimmed value, no empty link or type, no count. */
  predicate Normalised(r: Record)
  {
    && r.source != []
    && Unpadded(r.value)
    && (r.url.Some? ==> r.url.value != [])
    && (r.kind.Some? ==> r.kind.value != [])
    && r.count.None?
  }

  /**
   * `processSingleRating`: `null` for a missing object or one whose source or
   * value is empty or missing; otherwise the source, the trimmed value, and
   * the link and type, with `count` dropped.
   */
  function ProcessSingleRating(rating: Option<RawRating>): (r: Option<Record>)
    ensures r.Some? <==> rating.Some? && Truthy(rating.value.source) && Truthy(rating.value.value)
    ensures r.Some? ==> Normalised(r.value)
    ensures r.Some? ==>
      && r.value.source == rating.value.source.value
      && r.value.value == Trim(rating.value.value.value)
      && r.value.url == OrNull(rating.value.url)
      && r.value.kind == OrNull(rating.value.kind)
  {
    if rating.None? || !Truthy(rating.value.source) || !Truthy(rating.value.value) then None
    else
      var t := Trim(rating.value.value.value);
      Some(Record(rating.value.source.value, t, OrNull(rating.value.url), OrNull(rating.value.kind), None))
  }

  /** A record seen again as a provider's object. */
  function AsRaw(r: Record): RawRating
  {
    RawRating(Some(r.source), Some(r.value), r.url, r.kind, r.count)
  }

  /**
   * Normalising is idempotent on the records it keeps whose trimmed value is
   * not empty; a value of white space only is kept as an empty value, which a
   * second pass would drop.
   */
  lemma ProcessTwice(rating: Option<RawRating>)
    requires ProcessSingleRating(rating).Some?
    ensures var r := ProcessSingleRating(rating).value;
      ProcessSingleRating(Some(AsRaw(r))) == (if r.value == [] then None else Some(r))
  {
    ReprocessNormalised(ProcessSingleRating(rating).value);
  }

  /** A normalised record processed again is kept as it is, unless its value is empty. */
  lemma ReprocessNormalised(r: Record)
    requires Normalised(r)
    ensures ProcessSingleRating(Some(AsRaw(r))) == (if r.value == [] then None else Some(r))
  {
    var raw := AsRaw(r);
    if r.value == [] {
      assert !Truthy(raw.value);
    } else {
      ProcessBare(raw);
      assert OrNull(r.url) == r.url;
      assert OrNull(r.kind) == r.kind;
    }
  }

  /** An object with a source and a value that needs no trimming keeps both as they are. */
  lemma ProcessBare(raw: RawRating)
    requires Truthy(raw.source) && raw.value.Some? && Bare(raw.value.value)
    ensures ProcessSingleRating(Some(raw)) == Some(Record(raw.source.value, raw.value.value, OrNull(raw.url), OrNull(raw.kind), None))
  {
    var p := ProcessSingleRating(Some(raw));
    assert p.Some?;
    TrimUnchanged(raw.value.value);
    var q := p.value;
    assert q.source == raw.source.value;
    assert q.value == raw.value.value;
    assert q.url == OrNull(raw.url);
    assert q.kind == OrNull(raw.kind);
    assert q.count == None;
  }

  /** A value of white space only passes the check and comes out empty. */
  lemma BlankValueKept(source: string, value: string)
    requires source != [] && value != [] && AllSpace(value)
    ensures ProcessSingleRating(Some(RawRating(Some(source), Some(value), None, None, None)))
      == Some(Record(source, "", None, None, None))
  {
    TrimEmptyIff(value);
  }

  /** Every record of the list is normalised. */
  predicate AllNormalised(rs: seq<Record>)
  {
    forall j :: 0 <= j < |rs| ==> Normalised(rs[j])
  }

  /** The records `f` gives for each element of `xs`, concatenated in the order of `xs`. */
  function FlatMap<T>(xs: seq<T>, f: T -> seq<Record>): seq<Record>
  {
    if xs == [] then [] else FlatMap(xs[..|xs| - 1], f) + f(xs[|xs| - 1])
  }

  lemma {:induction false} FlatMapAppend<T>(a: seq<T>, b: seq<T>, f: T -> seq<Record>)
    ensures FlatMap(a + b, f) == FlatMap(a, f) + FlatMap(b, f)
    decreases |b|
  {
    if b == [] {
      assert a + b == a;
    } else {
      var b' := b[..|b| - 1];
      assert (a + b)[..|a + b| - 1] == a + b';
      assert (a + b)[|a + b| - 1] == b[|b| - 1];
      FlatMapAppend(a, b', f);
    }
  }

  lemma FlatMapOne<T>(x: T, f: T -> seq<Record>)
    ensures FlatMap([x], f) == f(x)
  {
    assert [x][..0] == [];
  }

  lemma FlatMapBlocks<T>(xs: seq<T>, i: nat, f: T -> seq<Record>)
    requires i < |xs|
    ensures FlatMap(xs, f) == FlatMap(xs[..i], f) + f(xs[i]) + FlatMap(xs[i + 1..], f)
  {
    var before, rest := xs[..i], xs[i + 1..];
    assert xs == before + ([xs[i]] + rest);
    FlatMapAppend(before, [xs[i]] + rest, f);
    FlatMapAppend([xs[i]], rest, f);
    FlatMapOne(xs[i], f);
    var x, y, z := FlatMap(before, f), f(xs[i]), FlatMap(rest, f);
    assert x + (y + z) == x + y + z;
  }

  lemma {:induction false} FlatMapEmptyIff<T>(xs: seq<T>, f: T -> seq<Record>)
    ensures FlatMap(xs, f) == [] <==> forall i :: 0 <= i < |xs| ==> f(xs[i]) == []
  {
    if xs != [] {
      var init := xs[..|xs| - 1];
      FlatMapEmptyIff(init, f);
      var c, last := FlatMap(init, f), f(xs[|xs| - 1]);
      assert FlatMap(xs, f) == c + last;
      if c + last == [] {
        assert |c + last| == |c| + |last|;
        assert c == [] && last == [];
        forall i | 0 <= i < |xs|
          ensures f(xs[i]) == []
        {
          if i < |init| {
            assert init[i] == xs[i];
          } else {
            assert i == |xs| - 1;
          }
        }
      } else if c != [] {
        var i :| 0 <= i < |init| && f(init[i]) != [];
        assert init[i] == xs[i];
      }
    }
  }

  lemma {:induction false} FlatMapNormalised<T>(xs: seq<T>, f: T -> seq<Record>)
    requires forall i :: 0 <= i < |xs| ==> AllNormalised(f(xs[i]))
    ensures AllNormalised(FlatMap(xs, f))
  {
    if xs != [] {
      var init := xs[..|xs| - 1];
      assert forall i :: 0 <= i < |init| ==> init[i] == xs[i];
      FlatMapNormalised(init, f);
      var c, last := FlatMap(init, f), f(xs[|xs| - 1]);
      assert AllNormalised(last);
      AllNormalisedConcat(c, last);
    }
  }

  lemma AllNormalisedConcat(a: seq<Record>, b: seq<Record>)
    requires AllNormalised(a) && AllNormalised(b)
    ensures AllNormalised(a + b)
  {
    assert forall j :: 0 <= j < |a + b| ==> (a + b)[j] == (if j < |a| then a[j] else b[j - |a|]);
  }

  /** What one item contributes to `map(processSingleRating).filter(Boolean)`. */
  function Kept(item: Option<RawRating>): (rs: seq<Record>)
    ensures rs == [] <==> ProcessSingleRating(item).None?
    ensures AllNormalised(rs)
  {
    match ProcessSingleRating(item)
    case None => []
    case Some(r) => [r]
  }

  /** `items.map(processSingleRating).filter(Boolean)`: the valid items, normalised, in order. */
  function ProcessAll(items: seq<Option<RawRating>>): seq<Record>
  {
    FlatMap(items, Kept)
  }

  /** Processing a list item by item: the parts of a split list give the parts of the result. */
  lemma ProcessAllAppend(a: seq<Option<RawRating>>, b: seq<Option<RawRating>>)
    ensures ProcessAll(a + b) == ProcessAll(a) + ProcessAll(b)
  {
    FlatMapAppend(a, b, Kept);
  }

  /** Exactly the valid items are kept: `ProcessAll` drops an item if and only if it is invalid. */
  lemma ProcessAllEmptyIff(items: seq<Option<RawRating>>)
    ensures ProcessAll(items) == [] <==> forall i :: 0 <= i < |items| ==> ProcessSingleRating(items[i]).None?
  {
    FlatMapEmptyIff(items, Kept);
    assert forall i :: 0 <= i < |items| ==> (Kept(items[i]) == [] <==> ProcessSingleRating(items[i]).None?);
  }

  /** Every record `ProcessAll` keeps is normalised. */
  lemma ProcessAllNormalised(items: seq<Option<RawRating>>)
    ensures forall i :: 0 <= i < |ProcessAll(items)| ==> Normalised(ProcessAll(items)[i])
  {
    FlatMapNormalised(items, Kept);
  }

  /** The records one provider contributes: nothing for `null` or a rejection; a single object is a one-item list. */
  function Contribution(o: Outcome): (rs: seq<Record>)
    ensures o.Rejected? || o.data.None? ==> rs == []
  {
    match o
    case Rejected => []
    case Resolved(None) => []
    case Resolved(Some(Single(r))) => ProcessAll([Some(r)])
    case Resolved(Some(List(items))) => ProcessAll(items)
  }

  /** A single object contributes exactly what a list holding only it would. */
  lemma SingleIsOneItemList(r: RawRating)
    ensures Contribution(Resolved(Some(Single(r)))) == Contribution(Resolved(Some(List([Some(r)]))))
    ensures Contribution(Resolved(Some(Single(r)))) == (if ProcessSingleRating(Some(r)).Some? then [ProcessSingleRating(Some(r)).value] else [])
  {
    FlatMapOne(Some(r), Kept);
  }

  /** The records of all providers, concatenated in the order of the outcomes. */
  function Collect(os: seq<Outcome>): seq<Record>
  {
    FlatMap(os, Contribution)
  }

  /** Collecting is concatenation: the records of a split list of outcomes are the records of its parts. */
  lemma CollectAppend(a: seq<Outcome>, b: seq<Outcome>)
    ensures Collect(a + b) == Collect(a) + Collect(b)
  {
    FlatMapAppend(a, b, Contribution);
  }

  /**
   * Each provider's records appear as one block, in the providers' order,
   * between the records of those before it and those after it: no record of
   * another provider is removed or reordered, and duplicates are kept.
   */
  lemma CollectBlocks(os: seq<Outcome>, i: nat)
    requires i < |os|
    ensures Collect(os) == Collect(os[..i]) + Contribution(os[i]) + Collect(os[i + 1..])
  {
    FlatMapBlocks(os, i, Contribution);
  }

  /** Collecting one more outcome appends its contribution. */
  lemma CollectStep(os: seq<Outcome>, i: nat)
    requires i < |os|
    ensures Collect(os[..i + 1]) == Collect(os[..i]) + Contribution(os[i])
  {
    assert os[..i + 1][..i] == os[..i];
  }

  /**
   * A provider that rejects, resolves `null` or resolves only invalid records
   * can be dropped without changing the result.
   */
  lemma SilentProviderIgnored(os: seq<Outcome>, i: nat)
    requires i < |os|
    requires Contribution(os[i]) == []
    ensures Collect(os) == Collect(os[..i] + os[i + 1..])
  {
    CollectBlocks(os, i);
    CollectAppend(os[..i], os[i + 1..]);
  }

  /** A rejection counts exactly as a `null` result. */
  lemma RejectedAsNull(os: seq<Outcome>, i: nat)
    requires i < |os| && os[i].Rejected?
    ensures Collect(os) == Collect(os[i := Resolved(None)])
  {
    var os' := os[i := Resolved(None)];
    CollectBlocks(os, i);
    CollectBlocks(os', i);
    assert os'[..i] == os[..i];
    assert os'[i + 1..] == os[i + 1..];
  }

  /** Nothing is collected exactly when no provider contributes a record. */
  lemma CollectEmptyIff(os: seq<Outcome>)
    ensures Collect(os) == [] <==> forall i :: 0 <= i < |os| ==> Contribution(os[i]) == []
  {
    FlatMapEmptyIff(os, Contribution);
  }

  lemma ContributionNormalised(o: Outcome)
    ensures AllNormalised(Contribution(o))
  {
    match o
    case Rejected =>
    case Resolved(None) =>
    case Resolved(Some(Single(r))) => ProcessAllNormalised([Some(r)]);
    case Resolved(Some(List(items))) => ProcessAllNormalised(items);
  }

  /** Every record the service collects is normalised. */
  lemma CollectNormalised(os: seq<Outcome>)
    ensures forall i :: 0 <= i < |Collect(os)| ==> Normalised(Collect(os)[i])
  {
    forall i | 0 <= i < |os|
      ensures AllNormalised(Contribution(os[i]))
    {
      ContributionNormalised(os[i]);
    }
    FlatMapNormalised(os, Contribution);
  }

  /** `activeProviders.some(…)`: whether any of the providers needs the title and year. */
  predicate NeedsStreamInfo(providers: seq<string>)
  {
    exists i :: 0 <= i < |providers| && providers[i] in StreamInfoProviders
  }

  /** The settled promises, one per active provider, in the order they are listed. */
  function Settled(outcomeOf: string -> Outcome): (os: seq<Outcome>)
    ensures |os| == |ActiveProviders|
    ensures forall k :: 0 <= k < |os| ==> os[k] == outcomeOf(ActiveProviders[k])
  {
    seq(|ActiveProviders|, k requires 0 <= k < |ActiveProviders| => outcomeOf(ActiveProviders[k]))
  }

  /** What aggregation returns: the collected records, or `null` when there are none. */
  function Aggregated(outcomeOf: string -> Outcome): (r: Option<seq<Record>>)
    ensures r.None? <==> Collect(Settled(outcomeOf)) == []
    ensures r.Some? ==> r.value == Collect(Settled(outcomeOf))
  {
    var all := Collect(Settled(outcomeOf));
    if all == [] then None else Some(all)
  }

  /**
   * `getRatings`. `storeReady` and `writeReady` are the two `isReady()` calls,
   * `read` is what the cache read gives, `tmdbThrows` and `streamInfoThrows`
   * say whether the two metadata lookups throw, and `outcomeOf` is how each
   * provider's promise settles. Besides the result, `write` is the cache
   * write that is attempted, if any; whether it succeeds does not matter.
   */
  method GetRatings(
    imdbId: string, storeReady: bool, read: CacheRead,
    tmdbThrows: bool, streamInfoThrows: bool,
    outcomeOf: string -> Outcome, writeReady: bool, ttlSeconds: nat)
    returns (r: Option<seq<Record>>, write: Option<CacheWrite>)
    // a truthy cached value is returned as it is, and nothing else happens
    ensures storeReady && read.ReadResult? && read.cached.Some? ==> r == read.cached && write.None?
    // otherwise a throwing lookup gives null, and the cache is not written
    ensures !(storeReady && read.ReadResult? && read.cached.Some?) && (tmdbThrows || streamInfoThrows) ==>
      r.None? && write.None?
    // otherwise the aggregated records, whatever the cache read did
    ensures !(storeReady && read.ReadResult? && read.cached.Some?) && !tmdbThrows && !streamInfoThrows ==>
      && r == Aggregated(outcomeOf)
      && write == (if r.Some? && writeReady then Some(CacheWrite(CachePrefix + imdbId, r.value, ttlSeconds)) else None)
  {
    if storeReady {
      match read
      case ReadThrows =>
      case ReadResult(cached) =>
        if cached.Some? {
          return cached, None;
        }
    }
    var needsStreamInfo := NeedsStreamInfo(ActiveProviders);
    assert ActiveProviders[2] in StreamInfoProviders;
    if tmdbThrows || (needsStreamInfo && streamInfoThrows) {
      return None, None;
    }
    var results := Settled(outcomeOf);
    var allRatings: seq<Record> := [];
    var i := 0;
    while i < |results|
      invariant 0 <= i <= |results|
      invariant allRatings == Collect(results[..i])
    {
      var processed := Contribution(results[i]);
      if |processed| > 0 {
        allRatings := allRatings + processed;
      }
      CollectStep(results, i);
      i := i + 1;
    }
    assert results[..i] == results;
    write := None;
    if |allRatings| > 0 && writeReady {
      write := Some(CacheWrite(CachePrefix + imdbId, allRatings, ttlSeconds));
    }
    r := if |allRatings| > 0 then Some(allRatings) else None;
  }

  /**
   * `getRatings` as the module is wired: `redisClient.get` and `redisClient.set`
   * are not functions of the cache module, so the read always throws and the
   * attempted write throws too. The cache then never answers, and the result
   * is the aggregation alone.
   */
  method GetRatingsAsWired(
    imdbId: string, storeReady: bool, tmdbThrows: bool, streamInfoThrows: bool,
    outcomeOf: string -> Outcome, writeReady: bool, ttlSeconds: nat)
    returns (r: Option<seq<Record>>)
    ensures tmdbThrows || streamInfoThrows ==> r.None?
    ensures !tmdbThrows && !streamInfoThrows ==> r == Aggregated(outcomeOf)
    ensures !tmdbThrows && !streamInfoThrows ==> (r.None? <==> forall k :: 0 <= k < |ActiveProviders| ==> Contribution(outcomeOf(ActiveProviders[k])) == [])
  {
    var write;
    r, write := GetRatings(imdbId, storeReady, ReadThrows, tmdbThrows, streamInfoThrows, outcomeOf, writeReady, ttlSeconds);
    CollectEmptyIff(Settled(outcomeOf));
  }

  /**
   * One provider's failure does not hide another's record: when IMDb answers
   * with one rating (say "9.3/10"), TMDb with another (say "8.7/10") and every
   * other provider fails, the result is exactly those two records, IMDb's first.
   */
  lemma ImdbAndTmdbAnswer(outcomeOf: string -> Outcome, imdbValue: string, tmdbValue: string)
    requires Bare(imdbValue) && Bare(tmdbValue)
    requires outcomeOf("IMDb") == Resolved(Some(Single(RawRating(Some("IMDb"), Some(imdbValue), None, None, None))))
    requires outcomeOf("TMDb") == Resolved(Some(Single(RawRating(Some("TMDb"), Some(tmdbValue), None, None, None))))
    requires forall k :: 2 <= k < |ActiveProviders| ==> outcomeOf(ActiveProviders[k]) == Rejected
    ensures Aggregated(outcomeOf) == Some([Record("IMDb", imdbValue, None, None, None), Record("TMDb", tmdbValue, None, None, None)])
  {
    var os := Settled(outcomeOf);
    assert os[0] == outcomeOf("IMDb");
    assert os[1] == outcomeOf("TMDb");
    SingleRecord("IMDb", imdbValue);
    SingleRecord("TMDb", tmdbValue);
    RejectedRest(os);
    FirstTwo(os, Record("IMDb", imdbValue, None, None, None), Record("TMDb", tmdbValue, None, None, None));
  }

  /** A non-empty value with no white space at either end. */
  predicate Bare(value: string) { value != [] && Unpadded(value) }

  /** When no outcome after the first two contributes, the records are theirs, in order. */
  lemma FirstTwo(os: seq<Outcome>, first: Record, second: Record)
    requires |os| >= 2 && Collect(os[2..]) == []
    requires Contribution(os[0]) == [first] && Contribution(os[1]) == [second]
    ensures Collect(os) == [first, second]
  {
    assert os[..1] == [os[0]];
    FlatMapOne(os[0], Contribution);
    CollectBlocks(os, 1);
  }

  /** A single object whose value has no white space around it contributes itself. */
  lemma SingleRecord(source: string, value: string)
    requires source != [] && Bare(value)
    ensures Contribution(Resolved(Some(Single(RawRating(Some(source), Some(value), None, None, None)))))
      == [Record(source, value, None, None, None)]
  {
    var raw := RawRating(Some(source), Some(value), None, None, None);
    ProcessBare(raw);
    SingleIsOneItemList(raw);
  }

  lemma RejectedRest(os: seq<Outcome>)
    requires |os| >= 2
    requires forall k :: 2 <= k < |os| ==> os[k] == Rejected
    ensures Collect(os[2..]) == []
  {
    CollectEmptyIff(os[2..]);
    assert forall k :: 0 <= k < |os[2..]| ==> os[2..][k] == os[k + 2];
  }
}
