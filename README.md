# Stremio ratings aggregator, modelled in Dafny

The add-on answers a Stremio stream request for an IMDb title with one
"Ratings" stream whose description lists the title's scores. Behind it, a
rating service looks the title up in a Redis cache, otherwise asks every
active provider (IMDb, TMDb, Metacritic, Common Sense Media, CringeMDB) for
its rating, normalises and concatenates what they return, and writes the
result back. The providers turn a title into a site-specific URL slug, fetch
the page and read the score out of it; the Rotten Tomatoes provider is
implemented but not among the active ones.

This project models, one module per source file:

- `UrlFormatter` (src/utils/urlFormatter.js): the shared title slug.
- `Imdb`, `Metacritic`, `CommonSense`, `CringeMdb`, `RottenTomatoes`
  (src/providers/): the URL builders, the text validation of each scraper
  and the `getRating` control flow of each provider.
- `RatingService` (src/services/ratingService.js): `processSingleRating`
  and the cache-first aggregation loop of `getRatings`.
- `RedisClient` (src/cache/redisClient.js): the cache wrapper as a class
  whose fields are the module's `client` and `ready` variables and the
  Redis keyspace it reads and writes.
- `StreamHandler` (src/handlers/streamHandler.js): the emoji map, the
  description lines and the stream object.

Shared modules: `Wrappers` (`Option`), `Records` (the rating record and the
outcome of a page fetch), `JsString` (the JavaScript string operations the
code uses: `\s`, `trim`, `toLowerCase`, the `replace` rewrites, `split`,
`join`, `padEnd`, `parseInt`) and `Decimal` (a decimal numeral printed back in
plain notation without leading or trailing zeros, which is how JavaScript
prints `parseFloat` of the short numerals the scrapers read).

A page is given as the texts the scraper's selectors pick out (for example
`ImdbPage.ratingText`), and a fetch as a function from URL to
`Fetched<Page>` (`NoResponse` for `null`, otherwise a status and a page).
Configuration values (base URLs, TTLs) are parameters.

Some behaviour of the code is easy to expect otherwise; the model follows
the code:

- `getRatings` reads the cache with `redisClient.get` and writes it with
  `redisClient.set`, which the cache module does not export. Both calls throw
  inside their `try` blocks, so the cache never answers and is never
  written. `RatingService.GetRatings` models the service for any cache read,
  and `RatingService.GetRatingsAsWired` models it as wired.
- There is no TTL policy depending on the release date, no negative-result
  caching in the service, and no de-duplication of the merged records: the
  service concatenates the providers' records, duplicates included, and
  writes with the configured TTL. Only the Rotten Tomatoes scraper
  de-duplicates (first record per source wins).
- The cache key is `ratings:` followed by the full id, episode suffix
  included.
- `formatTitleForUrlSlug` does not strip leading or trailing hyphens; its
  last step is commented out.

## Model

| member | source | states |
|---|---|---|
| UrlFormatter.SlugCharset | src/utils/urlFormatter.js:10-28 | every slug consists of `[a-z0-9-]` only, with no two hyphens in a row |
| UrlFormatter.SlugKeepsLettersAndDigits | src/utils/urlFormatter.js:13-23 | the slug keeps exactly the title's ASCII letters (lower-cased) and digits, in order: only hyphens are added |
| UrlFormatter.SlugOfBlankTitle | src/utils/urlFormatter.js:11-19 | a title of white space only gives the empty slug |
| UrlFormatter.SlugIdempotent | src/utils/urlFormatter.js:10-28 | formatting a slug again changes nothing |
| UrlFormatter.SlugIsFixpoint | src/utils/urlFormatter.js:13-23 | every string of the slug shape is its own slug |
| UrlFormatter.SlugKeepsLeadingHyphen | src/utils/urlFormatter.js:16-25 | a title starting with punctuation gives a slug starting with '-' (the stripping step is not applied) |
| UrlFormatter.SlugKeepsTrailingHyphen | src/utils/urlFormatter.js:16-25 | a title ending with punctuation gives a slug ending with '-' |
| Imdb.LeadingNumber | src/providers/imdb.js:33-34 | `^(\d+(\.\d+)?)` matches exactly when the text starts with a digit, and the match is a decimal prefix of the text |
| Imdb.LeadingNumberLongest | src/providers/imdb.js:33 | the match is the longest decimal prefix (the regex is greedy) |
| Imdb.LeadingNumberOf | src/providers/imdb.js:33 | a decimal followed by anything but a digit or '.' is matched exactly |
| Imdb.ScrapeImdbPage | src/providers/imdb.js:17-59 | a record exists iff the trimmed text starts with a decimal of value at most 10; its value is that decimal followed by "/10", with the page URL |
| Imdb.ImdbReadsDecimal | src/providers/imdb.js:33-50 | the text "d/10" reads back as the rating "d/10" when d is at most 10, and as nothing otherwise |
| Imdb.ImdbBareDecimal | src/providers/imdb.js:31-46 | a bare "d" and "d/10" give the same record |
| Imdb.TitleUrlOfEpisode | src/providers/imdb.js:69-75 | an episode id `tt…:s:e` gives the URL of its series' base id |
| Imdb.GetRating | src/providers/imdb.js:68-95 | no base URL, no response or a status other than 200 give `null`; otherwise the scraped record of the title URL |
| Metacritic.GetMetacriticUrl | src/providers/metacritic.js:17-25 | a URL exists iff the title and base URL are non-empty and the slug is not empty |
| Metacritic.MetacriticUrlShape | src/providers/metacritic.js:20-24 | the URL is the base, `/tv/` for a series or `/movie/` otherwise, then the title's slug |
| Metacritic.CriticScore | src/providers/metacritic.js:43-46 | an accepted critic score is at most 100 and is the integer value of the trimmed digit text |
| Metacritic.CriticScoreRoundTrip | src/providers/metacritic.js:43-46 | the printed number n reads back as n exactly when n is at most 100 |
| Metacritic.CriticScoreLeadingZero | src/providers/metacritic.js:44-45 | leading zeros do not change the critic score |
| Metacritic.FindMatch | src/providers/metacritic.js:49 | the count regex matches at the first position where it can, and nowhere before |
| Metacritic.ReviewCount | src/providers/metacritic.js:48-50 | no count exactly when "Based on N word" occurs nowhere in the trimmed text |
| Metacritic.ReviewCountRoundTrip | src/providers/metacritic.js:48-50 | "Based on N Critics…" reads back as the count N |
| Metacritic.UserScorePrinted | src/providers/metacritic.js:73-86 | an accepted user score is a decimal of value at most 10, printed in plain notation with the same value and no leading or trailing zeros |
| Metacritic.UserScoreRoundTrip | src/providers/metacritic.js:73-75 | a printed user score of at most 10 reads back as itself |
| Metacritic.ScrapeMetacriticPage | src/providers/metacritic.js:33-107 | the scraper gives the ratings assembled from the page's scores and counts as read |
| Metacritic.PushRatings | src/providers/metacritic.js:36-101 | the two guarded pushes, Metascore first, give the assembled ratings, `null` when nothing was pushed |
| Metacritic.RatingsShape | src/providers/metacritic.js:53-101 | `null` iff neither score is accepted; otherwise the critic record ("MC", "n/100", "Critics") first and the user record ("MC Users", "v/10", "Users") last, both with the page URL and their counts |
| Metacritic.MetacriticReadsBack | src/providers/metacritic.js:43-88 | a page showing n ≤ 100 and a decimal d ≤ 10 gives exactly the values "n/100" and "d/10" |
| Metacritic.TbdIgnored | src/providers/metacritic.js:92-94 | a user score reading "tbd" in any mix of letter cases counts as no user score |
| Metacritic.GetRating | src/providers/metacritic.js:116-148 | no title or base URL gives `null`; a result implies a URL, a 200 response and the page's ratings, and a 200 response always gives them |
| CommonSense.GetCommonSenseUrl | src/providers/commonsense.js:12-20 | a URL exists iff the title and base URL are non-empty and the slug is not empty |
| CommonSense.CommonSenseUrlShape | src/providers/commonsense.js:18-19 | the URL is the base, `/tv-reviews/` or `/movie-reviews/`, then the slug |
| CommonSense.ScrapeCommonSensePage | src/providers/commonsense.js:23-55 | a record exists iff the age text gives a non-empty rating; it is an "Age Rating" of "Common Sense" with the page URL |
| CommonSense.AgeRatingTrimmed | src/providers/commonsense.js:36-39 | an age rating is never empty and has no white space around it |
| CommonSense.AgeLabelDropped | src/providers/commonsense.js:37 | "age" in any case, then white space, then v gives v |
| CommonSense.AgeLabelAlone | src/providers/commonsense.js:37-50 | a text that is only the label gives no rating |
| CommonSense.PlainRatingKept | src/providers/commonsense.js:37 | a text without the label is kept as it is |
| CommonSense.LabelDroppedOnce | src/providers/commonsense.js:37 | the label is removed once, not repeatedly |
| CommonSense.GetRating | src/providers/commonsense.js:58-92 | no title or base URL gives `null`; a result implies a URL, a 200 response and the scraped record, and a 200 response always gives it |
| CringeMdb.CringeSlugShape | src/providers/cringemdb.js:21-25 | the slug is lower-case letters and digits with single hyphens between words only |
| CringeMdb.CringeSlugDropsCharacter | src/providers/cringemdb.js:23 | a character outside `[a-z0-9\s]` after lower-casing is dropped without a trace |
| CringeMdb.GetCringeMdbUrl | src/providers/cringemdb.js:17-30 | a URL exists iff title, year and base URL are present and the slug is not empty; it is base `/movie/` slug `-` year |
| CringeMdb.ScrapeCringeMdbPage | src/providers/cringemdb.js:38-106 | the scraper always returns a "Content Warnings" record whose value is the combined text of the certification and the flagged warnings |
| CringeMdb.ValueStartsWithCertification | src/providers/cringemdb.js:47-50 | the value always starts with the certification line |
| CringeMdb.CertificationFlagIgnored | src/providers/cringemdb.js:81-89 | a content flag named "Certification" adds nothing to the value |
| CringeMdb.NoFlagIgnored | src/providers/cringemdb.js:68-78 | a content flag whose value does not read yes in any case adds nothing to the value |
| CringeMdb.PageValueLines | src/providers/cringemdb.js:68-94 | the value is the trimmed join of the certification line and, in document order, one line per yes flag that is not named "Certification" |
| CringeMdb.YesFlagsListed | src/providers/cringemdb.js:68-94 | when every flag has a category, trimming removes nothing: the value is exactly that certification line and those yes lines |
| CringeMdb.YesFlagAppended | src/providers/cringemdb.js:72-88 | one more flag that reads yes, with a category other than "Certification", appends exactly a newline, its emoji, a space and its category |
| CringeMdb.GetRating | src/providers/cringemdb.js:115-151 | anything but a movie with title, year and base URL gives `null`; a result implies the URL, a 200 response and the scraped record; conversely, a built URL answered with 200 always gives that record |
| RottenTomatoes.RtSlugShape | src/providers/rottentomatoesProvider.js:14-30 | the slug is `[a-z0-9_]` with single underscores, none at either end |
| RottenTomatoes.RtSlugIdempotent | src/providers/rottentomatoesProvider.js:14-30 | formatting a slug again changes nothing |
| RottenTomatoes.RtSlugIsFixpoint | src/providers/rottentomatoesProvider.js:17-29 | every string of the slug shape is its own slug |
| RottenTomatoes.RtSlugKeepsLettersAndDigits | src/providers/rottentomatoesProvider.js:17-29 | the slug keeps exactly the title's ASCII letters (lower-cased) and digits, in order |
| RottenTomatoes.ApostropheVanishes | src/providers/rottentomatoesProvider.js:21 | an apostrophe is removed without leaving a separator |
| RottenTomatoes.ColonActsAsSpace | src/providers/rottentomatoesProvider.js:20 | a colon or underscore separates words like a space |
| RottenTomatoes.GetRottenTomatoesUrl | src/providers/rottentomatoesProvider.js:32-40 | a URL exists iff title and base URL are non-empty and the slug is not empty; it is base `/tv/` or `/m/` then the slug |
| RottenTomatoes.InRange | src/providers/rottentomatoesProvider.js:51-65 | a parsed score is kept exactly when it is a number in 0..100 |
| RottenTomatoes.DomScoreRoundTrip | src/providers/rottentomatoesProvider.js:47-56 | the DOM text "n%" reads back as n for n ≤ 100 |
| RottenTomatoes.JsonScoreRoundTrip | src/providers/rottentomatoesProvider.js:92-101 | the JSON-LD strings "n%" and "n" read back as n for n ≤ 100 |
| RottenTomatoes.ScoreRecordsShape | src/providers/rottentomatoesProvider.js:52-118 | an accepted critics score gives the first record ("RT", "Critics"), an accepted audience score the last ("RT Users", "Audience") |
| RottenTomatoes.ScrapeDomRatings | src/providers/rottentomatoesProvider.js:42-84 | the DOM reader returns the records of its two validated scores, suffix "%" |
| RottenTomatoes.ParseJsonLdRatings | src/providers/rottentomatoesProvider.js:87-126 | the JSON-LD reader returns the records of its two validated scores, suffix "/100" |
| RottenTomatoes.ReadJsonLdBlocks | src/providers/rottentomatoesProvider.js:134-144 | the records of all parsable JSON-LD blocks, in order; a block that fails to parse adds nothing |
| RottenTomatoes.Deduplicate | src/providers/rottentomatoesProvider.js:153-167 | the loop keeps the first record of each source, with only source, value and the page URL |
| RottenTomatoes.DedupSources | src/providers/rottentomatoesProvider.js:153-167 | de-duplication keeps every source that occurs |
| RottenTomatoes.DedupDistinct | src/providers/rottentomatoesProvider.js:153-167 | no source occurs twice afterwards |
| RottenTomatoes.DedupFirstWins | src/providers/rottentomatoesProvider.js:158-165 | each kept record carries the value of its source's first occurrence and the page URL |
| RottenTomatoes.DedupEmptyIff | src/providers/rottentomatoesProvider.js:169 | the result is empty exactly when there was nothing to de-duplicate |
| RottenTomatoes.ScrapeRottenTomatoesPage | src/providers/rottentomatoesProvider.js:128-174 | the scraper gives the page's ratings: JSON-LD first, the DOM only as a fallback, de-duplicated, `null` when empty |
| RottenTomatoes.JsonLdBeforeDom | src/providers/rottentomatoesProvider.js:147-169 | `null` iff nothing was read; when JSON-LD gives a rating the DOM is ignored and every value ends in "/100", otherwise every value ends in "%" |
| RottenTomatoes.GetRating | src/providers/rottentomatoesProvider.js:176-223 | no title or base URL gives `null`; a result implies the URL, a 200 response and the page's ratings, and a 200 response always gives them |
| RatingService.OrNull | src/services/ratingService.js:33-34 | `x \|\| null` keeps exactly the truthy strings |
| RatingService.ProcessSingleRating | src/services/ratingService.js:21-36 | `null` iff the object, its source or its value is missing or empty; otherwise source, trimmed value, url and type with empty ones as `null`, no count |
| RatingService.ProcessTwice | src/services/ratingService.js:21-36 | processing a processed record again keeps it, unless its value trimmed to nothing |
| RatingService.ReprocessNormalised | src/services/ratingService.js:21-36 | a normalised record processed again comes back unchanged, or as `null` when its value is empty |
| RatingService.ProcessBare | src/services/ratingService.js:21-36 | an object whose value has no white space at either end keeps its source and value as they are; an empty link or type becomes `null` |
| RatingService.BlankValueKept | src/services/ratingService.js:22-27 | a value of white space only passes the check and comes out empty |
| RatingService.Kept | src/services/ratingService.js:115-117 | an item yields no record exactly when `processSingleRating` rejects it, and what it yields is normalised |
| RatingService.ProcessAllAppend | src/services/ratingService.js:115-117 | `map(processSingleRating).filter(Boolean)` distributes over concatenation |
| RatingService.ProcessAllEmptyIff | src/services/ratingService.js:115-119 | nothing is kept exactly when every item is invalid |
| RatingService.ProcessAllNormalised | src/services/ratingService.js:115-117 | every kept record is normalised |
| RatingService.SingleIsOneItemList | src/services/ratingService.js:115-117 | a single object contributes what a one-item array would |
| RatingService.CollectAppend | src/services/ratingService.js:106-132 | collecting distributes over concatenation of the providers' outcomes |
| RatingService.CollectBlocks | src/services/ratingService.js:106-132 | each provider's records form one block in provider order; nothing is removed, reordered or de-duplicated |
| RatingService.SilentProviderIgnored | src/services/ratingService.js:113-127 | a provider that contributes nothing can be removed without changing the result |
| RatingService.RejectedAsNull | src/services/ratingService.js:128-131 | a rejected provider counts exactly as one that returned `null` |
| RatingService.CollectEmptyIff | src/services/ratingService.js:106-151 | nothing is collected exactly when no provider contributes a record |
| RatingService.ContributionNormalised | src/services/ratingService.js:113-127 | every record a provider contributes is normalised |
| RatingService.CollectNormalised | src/services/ratingService.js:106-132 | every collected record is normalised |
| RatingService.Settled | src/services/ratingService.js:11-18 | one outcome per active provider, in the order they are listed |
| RatingService.Aggregated | src/services/ratingService.js:151 | `null` iff nothing was collected, otherwise the collected records |
| RatingService.GetRatings | src/services/ratingService.js:44-158 | a truthy cached value is returned as it is with no write; a throwing metadata lookup gives `null` with no write; otherwise the aggregated records, and a write of them under `ratings:` + id exactly when there are some and the cache is ready |
| RatingService.GetRatingsAsWired | src/services/ratingService.js:49-63 | with the cache calls as written, the result is the aggregation alone: `null` exactly when no provider contributes |
| RatingService.ImdbAndTmdbAnswer | src/services/ratingService.js:97-151 | IMDb and TMDb answering while the other providers fail gives exactly their two records, IMDb's first |
| RedisClient.Fold | src/cache/redisClient.js:74-77 | the hash written has one field per source of the records |
| RedisClient.FoldLastWins | src/cache/redisClient.js:74-77 | a field holds the value of the last record with that source |
| RedisClient.FoldValues | src/cache/redisClient.js:74-77 | every field value comes from a record with that source |
| RedisClient.RedisCache.constructor | src/cache/redisClient.js:6-7 | no client and not ready, over the given keyspace, which like every Redis keyspace holds no empty hash |
| RedisClient.RedisCache.InitClient | src/cache/redisClient.js:10-39 | a client exists afterwards; readiness and the keyspace are unchanged |
| RedisClient.RedisCache.OnReady | src/cache/redisClient.js:20-25 | the `ready` event makes the cache ready, whether or not the module still holds a client (a client dropped while connecting keeps its handlers) |
| RedisClient.RedisCache.OnErrorOrEnd | src/cache/redisClient.js:15-32 | the `error` and `end` events make it not ready |
| RedisClient.RedisCache.IsReady | src/cache/redisClient.js:42-44 | reports the ready flag |
| RedisClient.RedisCache.HashRecords | src/cache/redisClient.js:56 | the list has one `{source, value}` per field of the hash |
| RedisClient.RedisCache.GetRatingsHash | src/cache/redisClient.js:47-61 | `null` iff not ready, the read fails, or the key holds no non-empty hash; otherwise the hash's fields as records; the keyspace is unchanged |
| RedisClient.RedisCache.SetRatingsHash | src/cache/redisClient.js:64-91 | `false` and no change when not ready, given nothing, or the transaction fails; otherwise `true`, and with a positive TTL the fields are merged into the key's hash with that TTL, while with a TTL of zero or less `EXPIRE` deletes the key |
| RedisClient.RedisCache.GetRatingsHashOrMarker | src/cache/redisClient.js:94-115 | records for a non-empty hash, the marker text for a string key, `null` otherwise; the keyspace is unchanged |
| RedisClient.RedisCache.SetNegativeMarker | src/cache/redisClient.js:118-130 | when ready, the write succeeds and the TTL is positive, the key holds the marker with its TTL and the result is `true`; otherwise (Redis refuses `EX` of zero or less) `false` and nothing changes |
| RedisClient.RedisCache.Disconnect | src/cache/redisClient.js:133-148 | the client is dropped and the cache is not ready, in both branches and whatever `quit` does |
| RedisClient.ReadBackLastWins | src/cache/redisClient.js:74-77 | after a write, reading back lists each source with its last value |
| RedisClient.ReadBackFromRatings | src/cache/redisClient.js:56 | every record read back after a write comes from the written ratings |
| RedisClient.WriteThenRead | src/cache/redisClient.js:47-91 | writing non-empty ratings to a new key with a positive TTL and reading it back gives the same sources with their last values; with a TTL of zero or less the write reports success and the read gives `null` |
| RedisClient.ListedSources | src/cache/redisClient.js:56 | the records read back name exactly the hash's fields |
| StreamHandler.GetEmojiForSource | src/handlers/streamHandler.js:6-19 | the mapped emoji for each of the nine mapped sources, and the default chart emoji exactly for every other source name |
| StreamHandler.EmojiNamesSource | src/handlers/streamHandler.js:7-17 | no two known sources share an emoji |
| StreamHandler.Find | src/handlers/streamHandler.js:55 | `find` returns the first record whose source is one of the names, `undefined` iff there is none |
| StreamHandler.SortedScoresOrdered | src/handlers/streamHandler.js:61-66 | the score lines are ordered IMDb, TMDb, MC, MC Users |
| StreamHandler.SortedScoresPermutation | src/handlers/streamHandler.js:61-66 | sorting is a permutation of the filtered records |
| StreamHandler.SortedScoresStable | src/handlers/streamHandler.js:63-66 | records of the same source keep their order (the sort is stable) |
| StreamHandler.SortedBySource | src/handlers/streamHandler.js:61-66 | the lines of a source are exactly that source's records when it is a score source, and none otherwise |
| StreamHandler.ScoreLineAligned | src/handlers/streamHandler.js:68-71 | each score line is the emoji, the source padded to nine characters, ": " and the value |
| StreamHandler.DescriptionLines | src/handlers/streamHandler.js:50-84 | the description starts and ends with the separator line |
| StreamHandler.CommonSenseFirst | src/handlers/streamHandler.js:54-58 | when there is a Common Sense record, the first one is the line right after the separator |
| StreamHandler.CringeLinesClean | src/handlers/streamHandler.js:76-82 | every CringeMDB line is trimmed, non-empty and has no line break |
| StreamHandler.CringeSingleLine | src/handlers/streamHandler.js:76-82 | a one-line CringeMDB value gives its trimmed text as the only line |
| StreamHandler.FormatLines | src/handlers/streamHandler.js:50-84 | the lines pushed are the description lines |
| StreamHandler.PushScoreLines | src/handlers/streamHandler.js:67-73 | the loop appends one score line per record |
| StreamHandler.PushValueLines | src/handlers/streamHandler.js:79-81 | the loop appends the trimmed, non-blank lines of the value |
| StreamHandler.ExternalUrlOfImdb | src/handlers/streamHandler.js:91 | the link is the first IMDb record's URL when it is truthy, otherwise the IMDb title URL of the id |
| StreamHandler.ExternalUrlOfEpisode | src/handlers/streamHandler.js:91 | without an IMDb record, an episode id links to its series' base title |
| StreamHandler.HandleStream | src/handlers/streamHandler.js:22-107 | no stream for an id not starting with "tt", a throwing service or no ratings; otherwise exactly one stream built from the ratings |

## Left out

- Fetching pages (`getPage`, axios) and parsing HTML with cheerio: a page is the list of texts its selectors pick out, and a fetch is a function parameter. Exceptions thrown while scraping are not modelled; the scrapers' `catch` blocks return `null` on inputs the model does not have.
- src/providers/tmdb.js, src/utils/getTmdbId.js, src/utils/getStreamName.js and src/utils/tmdbService.js are not part of this model; what TMDb returns is an outcome given to the service, and whether the two metadata lookups throw is a parameter.
- Concurrency: the providers run in parallel and settle in any order; the model consumes the settled outcomes in the order of `activeProviders`, which is what `Promise.allSettled` returns.
- Logging (src/utils/logger.js) has no effect on results and is left out.
- The `redis` library: connection, reconnection and the events themselves are left out; `OnReady` and `OnErrorOrEnd` are the event handlers. Key expiry is passive in Redis and the model only records the TTL set on a key.
- RedisClient.RedisCache.SetRatingsHash: on a key holding another type, Redis would still run `EXPIRE` inside the transaction; the model treats the whole transaction as failed and leaves the keyspace unchanged.
- Metacritic.UserScorePrinted (and Decimal.NumberText, which it uses): JavaScript prints `parseFloat` of a numeral with more than 15 significant digits rounded to the nearest double (`7.1234567890123456` prints as `7.123456789012346`) and prints numbers below 10^-6 in exponent form (`0.0000001` prints as `1e-7`); the model prints the numeral's exact value in plain notation, so it matches the source only for numerals outside those two cases.
- StreamHandler.GetEmojiForSource: the object lookup `emojiMap[source]` also finds the properties every JavaScript object inherits (`constructor`, `toString`, `__proto__`, …), which are truthy and print as `function Object() { [native code] }` and the like; the model gives the default chart emoji for those names. The providers' sources are fixed names, none of them such a property.
- CringeMdb.WarningEmoji: the same holds for `warningMap[category]`, and there the category is page text, so a flag headed `constructor` that reads yes gives the line `function Object() { [native code] } constructor` in the source and the default flag emoji in the model.
- Floating point: `parseFloat` comparisons are done on the decimal numeral exactly; the numeric branch of the Rotten Tomatoes `parsePercentage` (`Math.round(Number(v) * 100)`) is an input value, not computed.
- `toLowerCase` and `toUpperCase` are modelled on ASCII letters only; non-ASCII letters are left unchanged, so a title whose non-ASCII letters lower-case to ASCII ones is not modelled.
- Strings are sequences of code points; JavaScript's UTF-16 code units matter only for `padEnd` lengths of non-ASCII source names, which do not occur.
- RatingService.ProcessSingleRating: the source writes the trimmed value back into the provider's object (`rating.value = …`); the model returns a new record and does not model that aliasing, and `toString()` on non-string values is not modelled (values are strings).
- Startup and serving (src/server.js, src/addon.js, api/index.js), the manifest, the frontend, src/providers/letterboxd.js and src/providers/rottenTomatoes.js (stubs) are not part of this model.
