# Website traffic statistics: beacon ingestion and log generator

This project models the two programs of a small website-traffic counter.

The counter (`statistics.go`) reads nginx access-log lines. It cuts the beacon query
out of each line (`cutLogFetchData`) and classifies the visited URL as a movie page, a
list page or the home page (`formatUrl`). It builds one record per line (`logConsumer`)
and sends that record to both the PV and the UV counter. The PV counter forwards every
record. The UV counter forwards a record only when a per-day PFADD reports a new uid.
The storage writer (`dataStorage`) raises the page id under six sorted-set keys:
{global, per page type} x {day, hour, min}.

The generator (`batch_create_log.go`) expands three URL templates into the site's URL
list (`ruleResource`, `buildUrl`). It writes one access-log line per visit, with the
visit's fields form-encoded in the beacon (`makeLog`). Its `main` loop draws the page,
the referrer and the user agent with `randInt`.

How the model represents things:

- A Go string is a `string` whose characters stand for bytes (`GoStrings.IsByteString`).
- The channels between stages are sequences. Each stage is a method that reads its
  input queue in order and returns the queue it writes.
- The Redis store is a value passed in and returned:
  - sorted sets are `map<string, map<int, int>>`;
  - the PFADD sets are exact sets of strings, one per day key.
- MD5 is a `digest` parameter. The calendar arithmetic of `getTime` is a `clock`
  parameter.
- The random source is a sequence of draws (`rolls`). A store failure is a boolean per
  call (`up`, `oks`, `writeOk`).

Go library code the programs call is modelled from its documented behaviour:

- `strings.TrimSpace`, `strings.Replace`, `strconv.Itoa` and `strconv.Atoi` (64-bit)
  are in module `GoStrings`.
- `url.QueryEscape`, `url.QueryUnescape`, `Values.Set`, `Values.Encode`, `Query()`
  with `Values.Get`, and the refusal rules of `url.Parse` are in module `NetUrl`.
  `Query()` is modelled as in Go 1.17 and later, where an item holding ';' is
  skipped; earlier releases also split items at ';'. The generator never writes a
  raw ';' into the beacon query, since `QueryEscape` turns it into `%3B`.
- The `IndexOf` and `Substr` helpers of `github.com/mgutz/str` are not part of this
  model's source. `GoStrings.IndexOf` and `GoStrings.Substr` are stated assumptions
  about that library.

Module `RoundTrip` puts the two programs together:

- a line the generator writes is read back by the counter with the very fields it was
  written with;
- every URL the generator can draw is classified as the page it names.

Two behaviours of the code are worth stating plainly:

- `url.Parse` does not check the query's escapes. `Query()` drops only a badly
  escaped pair, and the other fields are still read (`NetUrl.ParsePair`,
  `NetUrl.ParseBeaconQuery`).
- A movie or list URL whose id is not a number gets id 0 (statistics.go:344-348,
  360-364; `Statistics.FormatUrlNonNumericId`).
- A beacon with no " HTTP/" after it yields the empty query, not the rest of the
  line, because `str.Substr` returns "" for a negative length
  (`Statistics.BeaconTextWithoutHttp`).

## Model

| member | source | states |
|---|---|---|
| GoStrings.IndexFrom | statistics.go:278 | the result is -1 or an occurrence at or after the start, and no occurrence lies between the start and the result |
| GoStrings.IndexOf | statistics.go:278 | `str.IndexOf` (stated assumption): -1 for a start outside the string; otherwise -1 or the first occurrence at or after `start` |
| GoStrings.Substr | statistics.go:288 | `str.Substr` (stated assumption): empty for an out-of-range index or a non-positive length; otherwise the slice from `index`, its end clamped to the string's length |
| GoStrings.LeadingSpace | statistics.go:275 | the count of white-space bytes at the front, with the next byte not white space |
| GoStrings.TrailingSpace | statistics.go:275 | the count of white-space bytes at the back, with the byte before them not white space |
| GoStrings.TrimSpace | statistics.go:275 | `strings.TrimSpace` on ASCII white space; its contract is given by `TrimSpaceSlice`, `TrimSpaceEmpty`, `TrimSpaceUnpadded` and `TrimSpaceKeepsOccurrences` |
| GoStrings.TrimSpaceSlice | statistics.go:275 | the trimmed line is the slice of the line after its leading white space, only white space is cut at either end, and the result neither starts nor ends with white space |
| GoStrings.TrimSpaceEmpty | statistics.go:275 | trimming leaves nothing exactly when the line is all white space |
| GoStrings.TrimSpaceUnpadded | statistics.go:275 | a line without white space at either end is left unchanged |
| GoStrings.TrimSpaceKeepsOccurrences | statistics.go:275-280 | trimming creates no occurrence of a marker that the raw line lacks |
| GoStrings.IndexOfFinds | statistics.go:278 | `IndexOf` returns an occurrence when none comes before it |
| GoStrings.Cut | statistics.go:296 | the text before and after the first separator, with the separator absent from the part before; the whole text when there is no separator |
| GoStrings.CutAtFirst | statistics.go:296 | cutting `a + sep + b`, where `a` lacks `sep`, gives back `a` and `b` |
| GoStrings.Replace | batch_create_log.go:90 | `strings.Replace(s, pat, repl, -1)` as a left-to-right, non-overlapping scan; its contract is given by `ReplaceWithoutMatch`, `ReplaceFirst` and `ReplaceOnce` |
| GoStrings.ReplaceWithoutMatch | batch_create_log.go:90 | `strings.Replace(-1)` leaves a string without the pattern unchanged |
| GoStrings.ReplaceFirst | batch_create_log.go:90 | the first occurrence after a prefix that lacks the pattern's first byte is replaced, and the scan goes on after it |
| GoStrings.ReplaceOnce | batch_create_log.go:90 | a string holding the pattern once has exactly that occurrence replaced |
| GoStrings.DigitsSpec | batch_create_log.go:90 | the digits of `n` are non-empty, all decimal, and start with '0' only for 0 |
| GoStrings.Itoa | batch_create_log.go:90 | `strconv.Itoa`: a minus sign for a negative number, then the digits; its contract is given by `ItoaDecimal` and `AtoiItoa` |
| GoStrings.ItoaDecimal | batch_create_log.go:90 | `strconv.Itoa` writes a decimal integer, with a minus sign exactly for negatives and never a plus sign |
| GoStrings.ScanDecimal | statistics.go:348 | a successful unsigned scan never exceeds 2^64 - 1 |
| GoStrings.Atoi | statistics.go:348 | `id, _ := strconv.Atoi(s)` always lies in the 64-bit range |
| GoStrings.ScanDigits | statistics.go:348 | scanning the digits of `n` gives back `n` |
| GoStrings.AtoiItoa | statistics.go:348 | `strconv.Atoi` inverts `strconv.Itoa` on every 64-bit integer |
| GoStrings.ScanShort | statistics.go:348 | at most 19 bytes never overflow, and the scan succeeds exactly on all-digit text |
| GoStrings.AtoiRejectsNonNumeric | statistics.go:348 | a short id that is not a signed decimal number parses to 0 |
| NetUrl.UpperHex | batch_create_log.go:106 | an upper-case hexadecimal digit whose value is `d` |
| NetUrl.EscapeByte | batch_create_log.go:106 | one escaped byte holds only unreserved bytes, '%' and '+' |
| NetUrl.QueryEscape | batch_create_log.go:106 | `url.QueryEscape`, one byte at a time; its contract is given by `QueryEscapeBytes`, `QueryEscapeUnreserved` and `UnescapeEscape` |
| NetUrl.QueryUnescape | statistics.go:296 | `url.QueryUnescape`: "%XX" is one byte, '+' a space, a bad escape an error; inverts `QueryEscape` by `UnescapeEscape` |
| NetUrl.QueryEscapeBytes | batch_create_log.go:106 | `url.QueryEscape` output holds only unreserved bytes, '%' and '+' |
| NetUrl.QueryEscapeUnreserved | batch_create_log.go:106 | text of unreserved bytes is left unchanged by `QueryEscape` |
| NetUrl.UnescapeEscapedByte | statistics.go:296 | unescaping one escaped byte yields that byte, then the rest |
| NetUrl.UnescapeEscape | statistics.go:296 | `QueryUnescape(QueryEscape(s)) == s` for every byte string |
| NetUrl.RemoveKey | batch_create_log.go:101-104 | the pairs left hold no pair with the removed key, and they stay byte strings |
| NetUrl.RemoveKeyGet | batch_create_log.go:101-104 | removing one key keeps the first value of every other key |
| NetUrl.Get | statistics.go:298-301 | `Values.Get`: the first value under a key, or ""; its contract is given by `SetGet`, `GetSortByKey` and `FormRoundTrip` |
| NetUrl.Set | batch_create_log.go:101-104 | `Values.Set` keeps the values byte strings |
| NetUrl.SetGet | batch_create_log.go:101-104 | after `Set`, `Get` returns the new value under the key set and the old value under every other key |
| NetUrl.KeyLessIrreflexive | batch_create_log.go:106 | Go's byte-wise string order is irreflexive |
| NetUrl.KeyLessAsymmetric | batch_create_log.go:106 | the order is asymmetric |
| NetUrl.KeyLessTotal | batch_create_log.go:106 | of two different keys, one is smaller |
| NetUrl.KeyLessTransitive | batch_create_log.go:106 | the order is transitive |
| NetUrl.InsertSpec | batch_create_log.go:106 | inserting adds exactly the new pair and keeps sorted pairs sorted |
| NetUrl.SortByKeySpec | batch_create_log.go:106 | the key sort inside `Values.Encode` is a permutation whose keys are in order |
| NetUrl.JoinFour | batch_create_log.go:106 | four pairs are encoded as `k=v` items joined by '&' |
| NetUrl.SortKeepsBytes | batch_create_log.go:106 | sorting keeps every pair a byte string |
| NetUrl.Encode | batch_create_log.go:106 | `Values.Encode`: pairs sorted by key, escaped and joined; its contract is given by `SortByKeySpec`, `EncodeBytes` and `FormRoundTrip` |
| NetUrl.FormTextAppend | batch_create_log.go:106 | form text followed by form text is form text |
| NetUrl.PairBytes | batch_create_log.go:106 | an encoded pair holds only escaped bytes and '=' |
| NetUrl.JoinBytes | batch_create_log.go:106 | joined pairs hold only escaped bytes, '=' and '&' |
| NetUrl.EncodeBytes | batch_create_log.go:106 | `Values.Encode` writes only escaped bytes, '=' and '&' |
| NetUrl.ParsePair | statistics.go:296 | one item of `url.ParseQuery` (Go 1.17 and later): skipped when empty, holding ';' or badly escaped; its contract is given by `ParseEncodedPair` |
| NetUrl.ParseQuery | statistics.go:296 | `url.ParseQuery` as `Query()` uses it, items in order and bad items dropped; its contract is given by `ParseJoin` and `FormRoundTrip` |
| NetUrl.ParseEncodedPair | statistics.go:296 | parsing an encoded `key=value` item gives back the one pair |
| NetUrl.ParseJoin | statistics.go:296 | `ParseQuery` undoes joining: the same pairs come back in the same order |
| NetUrl.PairHasNoAmpersand | statistics.go:296 | an encoded pair holds no '&' |
| NetUrl.GetInsert | statistics.go:298-301 | inserting a pair changes `Get` only for its own key |
| NetUrl.GetSortByKey | statistics.go:298-301 | the stable key sort keeps the first value of every key |
| NetUrl.FormRoundTrip | statistics.go:296-301 | `Get(ParseQuery(Encode(v)), key) == Get(v, key)` for every key |
| NetUrl.ParseBeaconQuery | statistics.go:291-294 | `url.Parse` keeps the text before the first '#' as the query; without a '#', it fails exactly on a control byte and otherwise keeps the whole text |
| Statistics.FormatUrl | statistics.go:339-380 | `formatUrl`: "/movie/" first, then "/list/", else home with id 1; its contract is given by `FormatUrlClassifies`, `FormatUrlMovieId`, `FormatUrlListId` and `FormatUrlNonNumericId` |
| Statistics.FormatUrlClassifies | statistics.go:339-380 | movie iff the URL contains "/movie/"; list iff it lacks "/movie/" and contains "/list/"; home otherwise, with id 1; id 0 without ".html"; URL and time copied; id within 64 bits |
| Statistics.MarkerAt | statistics.go:341 | the first marker is the one after a prefix that holds none |
| Statistics.PageIdText | statistics.go:344-348 | the id is `Atoi` of exactly the text between the marker and the first ".html" |
| Statistics.FormatUrlMovie | statistics.go:341-354 | a URL whose first "/movie/" follows the prefix is a movie page whose id is read from the text up to ".html" |
| Statistics.FormatUrlList | statistics.go:356-368 | a URL without "/movie/" whose first "/list/" follows the prefix is a list page with that id |
| Statistics.DecimalHasNoDot | statistics.go:345 | a decimal id holds no '.' |
| Statistics.FormatUrlMovieId | statistics.go:341-354 | movie page `n` is classified as movie `n` |
| Statistics.FormatUrlListId | statistics.go:356-368 | list page `n` is classified as list `n` |
| Statistics.FormatUrlNonNumericId | statistics.go:344-348 | a movie page whose id text is not a number gets id 0 |
| Statistics.BeaconFields | statistics.go:291-302 | a beacon that `url.Parse` refuses yields the empty record |
| Statistics.BeaconText | statistics.go:278-288 | the text between the first " /dig?" and the next " HTTP/", the empty text when no " HTTP/" follows, or none without the marker; its contract is given by `BeaconTextBetween`, `BeaconTextWithoutHttp` and `BeaconTextOfLine` |
| Statistics.BeaconTextWithoutHttp | statistics.go:278-288 | after the first " /dig?" with no " HTTP/" following it, the cut text is empty (`str.Substr` with a negative length) |
| Statistics.CutLogFetchDataWithoutHttp | statistics.go:275-303 | a trimmed line with a beacon marker but no " HTTP/" after it yields the record of the empty query: every field is empty |
| Statistics.CutLogFetchData | statistics.go:273-303 | `cutLogFetchData`; its contract is given by `CutLogFetchDataWithoutMarker`, `CutLogFetchDataReads`, `CutLogFetchDataRefusesControlBytes` and `RoundTrip.BeaconRoundTrip` |
| Statistics.CutLogFetchDataWithoutMarker | statistics.go:275-282 | a line whose trimmed text holds no " /dig?" yields the empty record |
| Statistics.CutLogFetchDataWithoutRawMarker | statistics.go:275-282 | so does a raw line without " /dig?", since trimming creates no marker |
| Statistics.DigMarkerAt | statistics.go:278 | the first " /dig?" is the one after a prefix that holds none |
| Statistics.HttpMarkerAt | statistics.go:286 | the next " HTTP/" after a space-free query is the one that ends it |
| Statistics.BeaconTextBetween | statistics.go:278-288 | the text cut out lies between the first " /dig?" and the next " HTTP/" |
| Statistics.LineUnpadded | statistics.go:275 | a log line that starts and ends with a non-space byte has no white space to trim |
| Statistics.BeaconTextOfLine | statistics.go:278-288 | the text cut out of `pre + " /dig?" + d + " HTTP/" + rest` is exactly `d` |
| Statistics.CutLogFetchDataReads | statistics.go:273-303 | the fields of such a line are read from its query `d` |
| Statistics.CutLogFetchDataRefusesControlBytes | statistics.go:291-294 | a query holding a control byte yields the empty record |
| Statistics.Assemble | statistics.go:250-264 | the record of one line: its fields, the digest of `refer + ua`, the classified page; its contract is given by `LineWithoutBeaconCountsAsHome` and `RoundTrip.GeneratedVisitCounted` |
| Statistics.AssembleAll | statistics.go:247-268 | one record per line |
| Statistics.AssembleAllAt | statistics.go:247-268 | record `i` is built from line `i` alone |
| Statistics.LogConsumer | statistics.go:247-270 | both queues receive the same records, in line order, each built from its own line |
| Statistics.LineWithoutBeaconCountsAsHome | statistics.go:250-264 | a line whose trimmed text has no beacon, the empty line included, is counted as home page 1 with the uid of "" |
| Statistics.PvCounter | statistics.go:209-219 | one "pv"/"ZINCRBY" request per record, in order, with the page unchanged |
| Statistics.GetTime | statistics.go:382-399 | `getTime`: the bucket of the clock parameter, written in decimal; its contract is given by `GetTimeDecimal` |
| Statistics.GetTimeDecimal | statistics.go:382-399 | every time bucket is a decimal integer |
| Statistics.PfAdd | statistics.go:229 | PFADD adds the elements to the day's set and replies 1 exactly when some element was new, 0 otherwise |
| Statistics.HllAt | statistics.go:227-232 | the day sets after the first `k` records; its contract is given by `HllGrows` and `UidStaysNew` |
| Statistics.UvOut | statistics.go:222-245 | the UV requests for the first `k` records under a reply check; its contract is given by `UvCounter`, `UvForwardRule`, `UvAtMostOncePerDay`, `UvFirstVisitForwarded` and `UvAsWrittenForwardsNothing` |
| Statistics.UvCounter | statistics.go:222-245 | with the intended reply check, the new day sets and the forwarded requests are those of the recursive specification |
| Statistics.UvForwardRule | statistics.go:229-243 | a record is forwarded exactly when its PFADD reaches the store and adds an element its day's set lacked |
| Statistics.HllGrows | statistics.go:229 | the day sets only grow |
| Statistics.UvAtMostOncePerDay | statistics.go:227-243 | a (day key, uid) pair is forwarded at most once |
| Statistics.UidStaysNew | statistics.go:227-236 | a uid not yet added on its day is still absent before its own record |
| Statistics.UvFirstVisitForwarded | statistics.go:227-243 | the first successful PFADD of a uid on a day forwards the record |
| Statistics.UvAsWrittenForwardsNothing | statistics.go:234 | with the check as written, no UV request is ever forwarded |
| Statistics.ZIncrBy | statistics.go:198 | ZINCRBY raises one member of one key by the delta and changes no other score |
| Statistics.Do | statistics.go:198-202 | one store call: ZINCRBY by 1 when it succeeds, no change when it fails; its contract is given by `ZIncrBy` and `WriteKeysEffect` |
| Statistics.SetKeys | statistics.go:179-189 | six keys per request |
| Statistics.SetKeysPrefixes | statistics.go:174-189 | every key starts with `counterType + "_"`, and the last three go on with the page type and '_' |
| Statistics.SetKeysDistinct | statistics.go:179-189 | the six keys are pairwise distinct, for every page type |
| Statistics.WriteKeys | statistics.go:193-204 | the store after the writes of the first `k` keys; its contract is given by `WriteKeysEffect` and `WriteBlock` |
| Statistics.WriteKeysEffect | statistics.go:193-204 | writing distinct keys raises the member by exactly 1 under each key whose write succeeded, and nothing else changes |
| Statistics.StoreAll | statistics.go:172-206 | the store after the first `k` requests; its contract is given by `DataStorage`, `StoreBlockEffect` and `RepeatedRequestsCountN` |
| Statistics.StoreAllNext | statistics.go:173-204 | request `i` applies its six writes to the store left by the requests before it |
| Statistics.WriteBlock | statistics.go:193-204 | the inner loop writes each key of the request in order, and a failed write leaves the store as it was |
| Statistics.DataStorage | statistics.go:172-206 | the final store is the one the specification gives for the requests and write outcomes |
| Statistics.StoreBlockEffect | statistics.go:191-204 | one request raises `unRid` by 1 under each of its keys whose write succeeded, whatever happened to the others; nothing else changes |
| Statistics.AllWritten | statistics.go:193-204 | when every write succeeds, every key is written |
| Statistics.RepeatedRequestsCountN | statistics.go:172-206 | `n` identical requests, all written, raise each of their keys by exactly `n`: there is no deduplication |
| BatchCreateLog.RuleResource | batch_create_log.go:53-78 | the home page, list pages 1..20 and movie pages 0..12923; its contract is given by `SiteUrlsShape`, `SiteUrlsCount`, `SiteUrlsList` and `SiteUrlsMovie` |
| BatchCreateLog.Range | batch_create_log.go:88-92 | a template yields `end - start` URLs, or none when `end <= start` |
| BatchCreateLog.RangeAt | batch_create_log.go:88-92 | URL `j` of a template is the template with every slot replaced by `start + j` |
| BatchCreateLog.FillSlot | batch_create_log.go:90 | a template with one slot yields its two parts around the decimal id |
| BatchCreateLog.TemplateUrlAt | batch_create_log.go:88-92 | URL `j` of template `a + "{$id}" + b` is `a + Itoa(start + j) + b` |
| BatchCreateLog.Expand | batch_create_log.go:85-93 | the URLs of one resource; its contract is given by `AppendResource` |
| BatchCreateLog.Urls | batch_create_log.go:81-96 | the URLs of the first `k` resources; its contract is given by `BuildUrl` and `SiteUrlsShape` |
| BatchCreateLog.AppendRange | batch_create_log.go:88-92 | the inner loop appends the template's URLs for ids `start` to `end - 1`, in order |
| BatchCreateLog.AppendResource | batch_create_log.go:84-93 | a resource without a target adds its URL once; any other adds its whole range |
| BatchCreateLog.BuildUrl | batch_create_log.go:81-96 | the list is the resources' URLs in resource order |
| BatchCreateLog.SiteUrlsShape | batch_create_log.go:53-78 | the site's list is the home page, then the list range, then the movie range |
| BatchCreateLog.SiteUrlsCount | batch_create_log.go:53-78 | the site's list holds 1 + 20 + 12924 = 12945 URLs, the home page first |
| BatchCreateLog.ListPageAt | batch_create_log.go:62-68 | URL `j - 1` of the list template is list page `j` |
| BatchCreateLog.MoviePageAt | batch_create_log.go:69-75 | URL `n` of the movie template is movie page `n` |
| BatchCreateLog.SiteUrlsList | batch_create_log.go:62-68 | positions 1..20 of the list are list pages 1..20 |
| BatchCreateLog.SiteUrlsMovie | batch_create_log.go:69-75 | positions 21..12944 are movie pages 0..12923 |
| BatchCreateLog.LogParams | batch_create_log.go:100-104 | the four `Set` calls keep byte strings byte strings |
| BatchCreateLog.LogParamsGet | batch_create_log.go:100-104 | `time` reads back "1", and `url`, `refer` and `ua` read back their arguments |
| BatchCreateLog.LogParamsPairs | batch_create_log.go:100-104 | the four `Set` calls leave four pairs, newest first |
| BatchCreateLog.EncodeParam | batch_create_log.go:106 | a key of unreserved bytes is written as it is |
| BatchCreateLog.EncodeTime | batch_create_log.go:101 | the time item is the plain text "time=1" |
| BatchCreateLog.ParamsText | batch_create_log.go:106 | the text of `u.Encode()` for the four parameters; its contract is given by `ParamsTextIsEncode` and `ParamsTextFormText` |
| BatchCreateLog.ParamsTextIsJoin | batch_create_log.go:106 | the parameter text is the four pairs, in key order, joined |
| BatchCreateLog.ParamsTextIsEncode | batch_create_log.go:100-106 | `u.Encode()` sorts the keys into `refer`, `time`, `ua`, `url` |
| BatchCreateLog.TemplateHasNoSlotBytes | batch_create_log.go:109-110 | the fixed parts of the log template hold no '{' and the later parts no 'p' |
| BatchCreateLog.FillSlots | batch_create_log.go:111-112 | the two `strings.Replace` calls fill exactly the two slots |
| BatchCreateLog.ParamFormText | batch_create_log.go:106 | one encoded parameter is form text |
| BatchCreateLog.ParamsTextFormText | batch_create_log.go:106 | the parameter text holds only form bytes |
| BatchCreateLog.ParamsHaveNoBrace | batch_create_log.go:106-111 | the encoded parameters hold no '{', so the second replacement cannot reach into them |
| BatchCreateLog.MakeLog | batch_create_log.go:98-114 | `makeLog`; its contract is given by `MakeLogFillsTemplate`, `RoundTrip.GeneratedLineSplits` and `RoundTrip.BeaconRoundTrip` |
| BatchCreateLog.MakeLogFillsTemplate | batch_create_log.go:98-114 | `makeLog` is the template with `u.Encode()` and the raw user agent in their slots |
| BatchCreateLog.RandInt | batch_create_log.go:116-123 | `max` when `min > max`; a panic exactly when `min == max`; otherwise a value in `[min, max)` |
| BatchCreateLog.RandIntReaches | batch_create_log.go:122 | every value of `[min, max)` is drawn for some roll |
| BatchCreateLog.Pick | batch_create_log.go:140-142 | `randInt(0, len-1)` never picks the last item, and panics exactly for a one-item list |
| BatchCreateLog.NextPick | batch_create_log.go:140-142 | a visit's three picks lie inside their lists |
| BatchCreateLog.Draws | batch_create_log.go:139-142 | `k` visits drawn, every pick inside its list, unless one panics |
| BatchCreateLog.LogLines | batch_create_log.go:138-144 | the text of `k` visits, or none after a panic; its contract is given by `GenerateLog`, `LogLinesDraws` and `LogLinesPanicEnds` |
| BatchCreateLog.LogLinesDraws | batch_create_log.go:139-144 | the log text fails exactly when one of the draws panics |
| BatchCreateLog.DrawsPanicEnds | batch_create_log.go:139-142 | a panic ends the run: no later count of visits succeeds |
| BatchCreateLog.LogLinesPanicEnds | batch_create_log.go:139-144 | after a panic, no later count of visits has a text |
| BatchCreateLog.AppendVisit | batch_create_log.go:140-143 | one pass of the loop extends the text by exactly the next visit's line |
| BatchCreateLog.GenerateLog | batch_create_log.go:138-144 | the loop yields the text of `total` visits, or a panic; a non-positive total yields "" |
| BatchCreateLog.DrawsSucceed | batch_create_log.go:140-142 | with at least two URLs and two user agents nothing panics |
| BatchCreateLog.SingleItemListPanics | batch_create_log.go:140 | a one-URL list panics on the first visit |
| RoundTrip.GeneratedLineSplits | batch_create_log.go:109-112 | a generated line is a prefix, " /dig?", the encoded parameters, " HTTP/" and the rest |
| RoundTrip.PrefixHasNoMarker | batch_create_log.go:109 | the log prefix holds no " /dig?" |
| RoundTrip.ParamsArePlain | batch_create_log.go:106 | the encoded parameters hold no space, no '#' and no control byte |
| RoundTrip.BeaconRoundTrip | statistics.go:273-303 | `cutLogFetchData(makeLog(url, refer, ua))` yields time "1" and the three arguments unchanged |
| RoundTrip.SiteHasNoHtml | batch_create_log.go:57 | the site address holds no ".html" |
| RoundTrip.MovieUrlClassified | statistics.go:341-354 | generated movie page `n` is classified as movie `n` |
| RoundTrip.SiteListHasNoList | batch_create_log.go:64 | the list prefix holds "/list/" only at its end |
| RoundTrip.ListUrlHasNoMovie | batch_create_log.go:64 | a list URL holds no "/movie/" |
| RoundTrip.ListUrlClassified | statistics.go:356-368 | generated list page `n` is classified as list `n` |
| RoundTrip.HomeUrlClassified | statistics.go:369-376 | the generated home URL is home page 1 |
| RoundTrip.DecimalIsBytes | batch_create_log.go:90 | a decimal id is ASCII |
| RoundTrip.SiteUrlIsBytes | batch_create_log.go:136 | every URL of the site's list is ASCII |
| RoundTrip.GeneratedVisitCounted | statistics.go:247-267 | a visit generated for list position `j` reaches the counters as a record of the page at `j`, with the uid of its referrer and user agent |

## Left out

- `readFileLineByLine` (statistics.go:306-337): file I/O, an endless loop and a sleep. Lines arrive as the input sequence of `LogConsumer`. The empty line that each end-of-file pass pushes is covered by `Statistics.LineWithoutBeaconCountsAsHome`.
- Goroutines, channels and `main`'s sleep (statistics.go:118-170): each stage is a method over an input sequence. Several `logConsumer` workers interleave their outputs in any order; the model has one worker.
- `initRedis`, the pool and the ping goroutine (statistics.go:82-116): the store is a value, and a failed call is an input flag.
- MD5 and hex encoding (statistics.go:254-256): the uid is `digest(refer + ua)` for a deterministic parameter `digest`.
- `getTime` (statistics.go:382-399): `time.Parse` and `Unix()` are a deterministic `clock` parameter. A parse error gives the zero time, which the model does not distinguish.
- HyperLogLog: PFADD is modelled over exact sets, with no estimation error.
- The "EX"/86400 arguments of PFADD (statistics.go:229): they are added as two more set elements, as PFADD takes them. No expiry is modelled.
- logrus logging and the generator's console output: no effect on the data.
- Generator file output and random seeding (batch_create_log.go:118, 146-150): the rolls are a parameter and the text is returned.
- `tongji.js`: browser code that sends the beacon; it is not part of this model.
- GoStrings.IndexOf: `str.IndexOf` of `github.com/mgutz/str` is a stated assumption, not derived from its code.
- GoStrings.Substr: `str.Substr` of `github.com/mgutz/str` is a stated assumption, not derived from its code.
- GoStrings.TrimSpace: only the six ASCII white-space bytes are trimmed. Unicode white space (U+0085, U+00A0 and the multi-byte spaces) is not modelled.
- NetUrl.ParseBeaconQuery: `url.Parse` is reduced to its control-byte and fragment-escape refusals on a fixed scheme and host. Its other rules do not arise for the query text after "/?".
- NetUrl.EscapeByte: a character above 255 is not a Go byte, and it is escaped by its low byte. The round-trip lemmas require byte strings.
- Statistics.FormatUrlNonNumericId: stated for ids of at most 20 bytes. Longer digit runs overflow to the 64-bit bounds, and `GoStrings.Atoi` models that case.
- Statistics.CutLogFetchDataReads: stated for lines with no white space at either end and a space-free query, which is the shape the generator writes. `Statistics.CutLogFetchData` itself covers every line.
- BatchCreateLog.RandInt: Go computes `max - min` in 64-bit arithmetic, which wraps for a range wider than the largest int64 (`randInt(math.MinInt64, 1)` panics in Go); the wrap is not modelled. It cannot arise from the only calls, `randInt(0, len(list) - 1)` on the lengths of the URL and user-agent lists.
- Statistics.LogConsumer: models one worker. The order across several concurrent workers is left out.

## Findings

| source | as written | input that shows it | evidently intended | confidence | as-written member | corrected member |
|---|---|---|---|---|---|---|
| statistics.go:234 | `if ret != 1 { continue }` compares the `interface{}` reply, which holds an `int64`, with the untyped constant 1, which becomes a Go `int`; the two are never equal, so every record is dropped | any record whose PFADD succeeds with reply `int64(1)`, such as the first visit of a uid on a day | forward the record when the reply is the integer 1, that is when PFADD added a new element | not executed | Statistics.UvAsWrittenForwardsNothing | Statistics.UvCounter, Statistics.UvFirstVisitForwarded |
