/** The counting side of the pipeline (`statistics.go`): the beacon parser
    (`cutLogFetchData`), the page classifier (`formatUrl`), the event worker
    (`logConsumer`), the PV and UV counters and the storage writer (`dataStorage`).

    The channels between the stages are sequences: a stage reads its input queue in
    order and returns the queue it writes. The key-value store is a value passed in and
    returned: sorted sets (`ZStore`) and the per-day distinct sets behind PFADD (`Hll`,
    exact sets in place of HyperLogLog). MD5 and the calendar arithmetic of `getTime`
    are parameters (`digest`, `clock`): deterministic functions the model does not open. */
module Statistics {
  import opened GoStrings
  import opened NetUrl

  const HandleDig := " /dig?"
  const HandleMovie := "/movie/"
  const HandleList := "/list/"
  const HandleHtml := ".html"
  const HandleHttp := " HTTP/"

  /** The four beacon fields of one access-log line. */
  datatype DigData = DigData(time: string, url: string, refer: string, ua: string)

  const EmptyDig := DigData("", "", "", "")

  /** The page types `formatUrl` assigns; `TypeName` is the `unType` string. */
  datatype PageType = Movie | List | Home

  function TypeName(t: PageType): string {
    match t
    case Movie => "movie"
    case List => "list"
    case Home => "home"
  }

  datatype UrlNode = UrlNode(unType: PageType, unRid: int, unUrl: string, unTime: string)

  datatype UrlData = UrlData(data: DigData, uid: string, unode: UrlNode)

  datatype StorageBlock = StorageBlock(counterType: string, storageModel: string, unode: UrlNode)

  // ---------------------------------------------------------------------------
  // Page classification: formatUrl
  // ---------------------------------------------------------------------------

  /** The id text runs from `from` to the first ".html" of the whole URL. */
  function PageId(url: string, from: int): int {
    var pos2 := IndexOf(url, HandleHtml, 0);
    Atoi(Substr(url, from, pos2 - from))
  }

  /** `formatUrl`: "/movie/" is looked for first, then "/list/"; anything else is the home
      page with the sentinel id 1. */
  function FormatUrl(url: string, t: string): UrlNode {
    var pos1 := IndexOf(url, HandleMovie, 0);
    if pos1 != -1 then
      UrlNode(Movie, PageId(url, pos1 + |HandleMovie|), url, t)
    else
      var pos1 := IndexOf(url, HandleList, 0);
      if pos1 != -1 then UrlNode(List, PageId(url, pos1 + |HandleList|), url, t)
      else UrlNode(Home, 1, url, t)
  }

  /** The page type follows the first marker the URL contains, "/movie/" before
      "/list/"; the home page has id 1, a page without ".html" id 0, and every id fits
      in 64 bits. */
  lemma FormatUrlClassifies(url: string, t: string)
    ensures var r := FormatUrl(url, t);
            && r.unUrl == url && r.unTime == t
            && (r.unType == Movie <==> Contains(url, HandleMovie))
            && (r.unType == List <==> !Contains(url, HandleMovie) && Contains(url, HandleList))
            && (r.unType == Home <==> !Contains(url, HandleMovie) && !Contains(url, HandleList))
            && (r.unType == Home ==> r.unRid == 1)
            && (r.unType != Home && !Contains(url, HandleHtml) ==> r.unRid == 0)
            && MinInt64 <= r.unRid <= MaxInt64
  {
  }

  /** The first occurrence of `marker` in `pre + marker + after` is the one after `pre`
      when `pre` followed by all but the last byte of `marker` has none. */
  lemma MarkerAt(pre: string, marker: string, after: string)
    requires |marker| > 0 && !Contains(pre + marker[..|marker| - 1], marker)
    ensures IndexOf(pre + marker + after, marker, 0) == |pre|
  {
    var line := pre + marker + after;
    var p := pre + marker[..|marker| - 1];
    var m := |marker|;
    assert line[..|p|] == p;
    forall j | 0 <= j < |pre| ensures !OccursAt(line, marker, j) {
      SliceOfSlice(line, 0, |p|, j, j + m);
      assert !OccursAt(p, marker, j);
    }
    assert line[|pre|..|pre| + m] == marker;
    IndexOfFinds(line, marker, 0, |pre|);
  }

  /** In `pre + marker + text + ".html" + post`, with no ".html" inside `pre` and no
      '.' in `text`, the id is read from exactly `text`. */
  lemma PageIdText(pre: string, marker: string, text: string, post: string)
    requires marker == HandleMovie || marker == HandleList
    requires !Contains(pre, HandleHtml) && '.' !in text
    ensures PageId(pre + marker + text + HandleHtml + post, |pre| + |marker|) == Atoi(text)
  {
    var url := pre + marker + text + HandleHtml + post;
    var k := |pre| + |marker| + |text|;
    assert url[k..k + 5] == HandleHtml;
    forall j | 0 <= j < k ensures !OccursAt(url, HandleHtml, j) {
      if j < |pre| {
        if j + 5 <= |pre| {
          assert url[j..j + 5] == pre[j..j + 5];
          assert !OccursAt(pre, HandleHtml, j);
        } else {
          assert url[|pre|] == '/';
          assert HandleHtml[|pre| - j] != '/';
          assert url[j..j + 5][|pre| - j] == url[|pre|];
        }
      } else {
        assert url[j] == (marker + text)[j - |pre|];
        assert url[j] != '.';
        assert url[j..j + 5][0] == url[j];
      }
    }
    IndexOfFinds(url, HandleHtml, 0, k);
    assert Substr(url, |pre| + |marker|, |text|) == text;
  }

  /** A URL whose first "/movie/" follows `pre` is a movie page whose id is read from
      the text up to ".html". */
  lemma FormatUrlMovie(pre: string, text: string, post: string, t: string)
    requires !Contains(pre + "/movie", HandleMovie)
    requires !Contains(pre, HandleHtml) && '.' !in text
    ensures FormatUrl(pre + HandleMovie + text + HandleHtml + post, t)
         == UrlNode(Movie, Atoi(text), pre + HandleMovie + text + HandleHtml + post, t)
  {
    var url := pre + HandleMovie + text + HandleHtml + post;
    assert HandleMovie[..6] == "/movie";
    MarkerAt(pre, HandleMovie, text + HandleHtml + post);
    assert pre + HandleMovie + (text + HandleHtml + post) == url;
    PageIdText(pre, HandleMovie, text, post);
  }

  /** A URL without "/movie/" whose first "/list/" follows `pre` is a list page whose
      id is read from the text up to ".html". */
  lemma FormatUrlList(pre: string, text: string, post: string, t: string)
    requires !Contains(pre + HandleList + text + HandleHtml + post, HandleMovie)
    requires !Contains(pre + "/list", HandleList)
    requires !Contains(pre, HandleHtml) && '.' !in text
    ensures FormatUrl(pre + HandleList + text + HandleHtml + post, t)
         == UrlNode(List, Atoi(text), pre + HandleList + text + HandleHtml + post, t)
  {
    var url := pre + HandleList + text + HandleHtml + post;
    assert HandleList[..5] == "/list";
    MarkerAt(pre, HandleList, text + HandleHtml + post);
    assert pre + HandleList + (text + HandleHtml + post) == url;
    PageIdText(pre, HandleList, text, post);
  }

  /** A decimal id holds no '.'. */
  lemma DecimalHasNoDot(n: int)
    ensures '.' !in Itoa(n)
  {
    var id := Itoa(n);
    ItoaDecimal(n);
    forall i | 0 <= i < |id| ensures id[i] != '.' {
      if id[0] == '-' || id[0] == '+' {
        if i > 0 {
          assert id[1..][i - 1] == id[i];
        }
      }
    }
  }

  /** Movie page `n` is classified with id `n`. */
  lemma FormatUrlMovieId(pre: string, n: int, post: string, t: string)
    requires MinInt64 <= n <= MaxInt64
    requires !Contains(pre + "/movie", HandleMovie)
    requires !Contains(pre, HandleHtml)
    ensures FormatUrl(pre + HandleMovie + Itoa(n) + HandleHtml + post, t)
         == UrlNode(Movie, n, pre + HandleMovie + Itoa(n) + HandleHtml + post, t)
  {
    DecimalHasNoDot(n);
    FormatUrlMovie(pre, Itoa(n), post, t);
    AtoiItoa(n);
  }

  /** List page `n` is classified with id `n`. */
  lemma FormatUrlListId(pre: string, n: int, post: string, t: string)
    requires MinInt64 <= n <= MaxInt64
    requires !Contains(pre + HandleList + Itoa(n) + HandleHtml + post, HandleMovie)
    requires !Contains(pre + "/list", HandleList)
    requires !Contains(pre, HandleHtml)
    ensures FormatUrl(pre + HandleList + Itoa(n) + HandleHtml + post, t)
         == UrlNode(List, n, pre + HandleList + Itoa(n) + HandleHtml + post, t)
  {
    DecimalHasNoDot(n);
    FormatUrlList(pre, Itoa(n), post, t);
    AtoiItoa(n);
  }

  /** A movie page whose id text is not a decimal number gets id 0. */
  lemma FormatUrlNonNumericId(pre: string, text: string, post: string, t: string)
    requires !Contains(pre + "/movie", HandleMovie)
    requires !Contains(pre, HandleHtml) && '.' !in text
    requires |text| <= 20 && !IsDecimalInt(text)
    ensures FormatUrl(pre + HandleMovie + text + HandleHtml + post, t).unRid == 0
  {
    FormatUrlMovie(pre, text, post, t);
    AtoiRejectsNonNumeric(text);
  }

  // ---------------------------------------------------------------------------
  // Beacon extraction: cutLogFetchData
  // ---------------------------------------------------------------------------

  /** The four fields read from the query text `d` of a beacon, or the empty record
      when `url.Parse` refuses it. */
  function BeaconFields(d: string): (r: DigData)
    ensures ParseBeaconQuery(d).None? ==> r == EmptyDig
  {
    match ParseBeaconQuery(d)
    case None => EmptyDig
    case Some(q) =>
      var data := ParseQuery(q);
      DigData(Get(data, "time"), Get(data, "url"), Get(data, "refer"), Get(data, "ua"))
  }

  /** `cutLogFetchData`: trim the line, find the first " /dig?", take the text up to the
      next " HTTP/" and read `time`, `url`, `refer` and `ua` from it. */
  function CutLogFetchData(logStr: string): DigData {
    match BeaconText(TrimSpace(logStr))
    case None => EmptyDig
    case Some(d) => BeaconFields(d)
  }

  /** The text `cutLogFetchData` cuts out of a trimmed line: from after the first
      " /dig?" up to the next " HTTP/" (the empty text when no " HTTP/" follows, since
      `str.Substr` yields "" for a negative length), or nothing when the line has no
      beacon marker. */
  function BeaconText(line: string): Option<string> {
    var pos1 := IndexOf(line, HandleDig, 0);
    if pos1 == -1 then None
    else
      var from := pos1 + |HandleDig|;
      var pos2 := IndexOf(line, HandleHttp, from);
      Some(Substr(line, from, pos2 - from))
  }

  /** A line whose trimmed text has no beacon marker yields the empty record. */
  lemma CutLogFetchDataWithoutMarker(logStr: string)
    requires !Contains(TrimSpace(logStr), HandleDig)
    ensures CutLogFetchData(logStr) == EmptyDig
  {
  }

  /** In particular a raw line without the marker: trimming creates none. */
  lemma CutLogFetchDataWithoutRawMarker(logStr: string)
    requires !Contains(logStr, HandleDig)
    ensures CutLogFetchData(logStr) == EmptyDig
  {
    if Contains(TrimSpace(logStr), HandleDig) {
      TrimSpaceKeepsOccurrences(logStr, HandleDig);
    }
    CutLogFetchDataWithoutMarker(logStr);
  }

  /** The first beacon marker of `pre + " /dig?" + after` is the one after `pre`. */
  lemma DigMarkerAt(pre: string, d: string, rest: string)
    requires !Contains(pre + " /dig", HandleDig)
    ensures IndexOf(pre + HandleDig + d + HandleHttp + rest, HandleDig, 0) == |pre|
  {
    var line := pre + HandleDig + d + HandleHttp + rest;
    var head := pre + HandleDig;
    var p := pre + " /dig";
    assert head[..|p|] == p;
    forall j | 0 <= j < |pre| ensures !OccursAt(line, HandleDig, j) {
      assert line[j..j + 6] == head[j..j + 6];
      SliceOfSlice(head, 0, |p|, j, j + 6);
      assert !OccursAt(p, HandleDig, j);
    }
    assert line[|pre|..|pre| + 6] == HandleDig;
    IndexOfFinds(line, HandleDig, 0, |pre|);
  }

  lemma HttpMarkerAt(head: string, d: string, rest: string)
    requires ' ' !in d
    ensures IndexOf(head + d + HandleHttp + rest, HandleHttp, |head|) == |head| + |d|
  {
    var line := head + d + HandleHttp + rest;
    var from := |head|;
    var k := from + |d|;
    forall j | from <= j < k ensures !OccursAt(line, HandleHttp, j) {
      assert line[j] == d[j - from];
      assert line[j..j + 6][0] == line[j];
    }
    assert line[k..k + 6] == HandleHttp;
    IndexOfFinds(line, HandleHttp, from, k);
  }

  /** The text between the first beacon marker and the next " HTTP/" after it. */
  lemma BeaconTextBetween(line: string, p: nat, q: nat)
    requires IndexOf(line, HandleDig, 0) == p && p + 6 <= q <= |line|
    requires IndexOf(line, HandleHttp, p + 6) == q
    ensures BeaconText(line) == Some(line[p + 6..q])
  {
    assert Substr(line, p + 6, q - (p + 6)) == line[p + 6..q];
  }

  /** A beacon marker with no " HTTP/" after it yields the empty text, not the rest of
      the line: the second search gives -1 and `str.Substr` a negative length. */
  lemma BeaconTextWithoutHttp(line: string, p: nat)
    requires IndexOf(line, HandleDig, 0) == p
    requires !Contains(line[p + 6..], HandleHttp)
    ensures BeaconText(line) == Some("")
  {
    var from := p + 6;
    var q := IndexOf(line, HandleHttp, from);
    if q != -1 {
      SliceOfSlice(line, from, |line|, q - from, q - from + 6);
      assert OccursAt(line[from..], HandleHttp, q - from);
    }
  }

  /** Hence a line whose beacon is not followed by " HTTP/" yields the record of the
      empty query: every field is empty. */
  lemma CutLogFetchDataWithoutHttp(logStr: string, p: nat)
    requires IndexOf(TrimSpace(logStr), HandleDig, 0) == p
    requires !Contains(TrimSpace(logStr)[p + 6..], HandleHttp)
    ensures CutLogFetchData(logStr) == EmptyDig
  {
    BeaconTextWithoutHttp(TrimSpace(logStr), p);
    assert ParseBeaconQuery("") == Some("");
  }

  /** A line `pre + " /dig?" + d + " HTTP/" + rest` that has no white space at either
      end, whose first beacon marker follows `pre` and whose query text `d` has no
      space: the fields are read from `d`. */
  lemma CutLogFetchDataReads(pre: string, d: string, rest: string)
    requires |pre| > 0 && !IsSpace(pre[0]) && !IsSpace((HandleHttp + rest)[|HandleHttp + rest| - 1])
    requires !Contains(pre + " /dig", HandleDig)
    requires ' ' !in d
    ensures CutLogFetchData(pre + HandleDig + d + HandleHttp + rest) == BeaconFields(d)
  {
    var line := pre + HandleDig + d + HandleHttp + rest;
    LineUnpadded(pre, d, rest);
    TrimSpaceUnpadded(line);
    BeaconTextOfLine(pre, d, rest);
  }

  /** The line's ends are its prefix's first byte and its rest's last. */
  lemma LineUnpadded(pre: string, d: string, rest: string)
    requires |pre| > 0 && !IsSpace(pre[0]) && !IsSpace((HandleHttp + rest)[|HandleHttp + rest| - 1])
    ensures var line := pre + HandleDig + d + HandleHttp + rest;
            line != [] && !IsSpace(line[0]) && !IsSpace(line[|line| - 1])
  {
  }

  /** The text between the markers of such a line is `d`. */
  lemma BeaconTextOfLine(pre: string, d: string, rest: string)
    requires !Contains(pre + " /dig", HandleDig)
    requires ' ' !in d
    ensures BeaconText(pre + HandleDig + d + HandleHttp + rest) == Some(d)
  {
    var head := pre + HandleDig;
    var line := head + d + HandleHttp + rest;
    DigMarkerAt(pre, d, rest);
    HttpMarkerAt(head, d, rest);
    assert line[|head|..|head| + |d|] == d;
    BeaconTextBetween(line, |pre|, |head| + |d|);
  }

  /** A beacon whose query text holds a control byte (and no '#') yields the empty
      record: `url.Parse` refuses it. */
  lemma CutLogFetchDataRefusesControlBytes(pre: string, d: string, rest: string)
    requires |pre| > 0 && !IsSpace(pre[0]) && !IsSpace((HandleHttp + rest)[|HandleHttp + rest| - 1])
    requires !Contains(pre + " /dig", HandleDig)
    requires ' ' !in d && '#' !in d && HasCtlByte(d)
    ensures CutLogFetchData(pre + HandleDig + d + HandleHttp + rest) == EmptyDig
  {
    CutLogFetchDataReads(pre, d, rest);
  }

  // ---------------------------------------------------------------------------
  // Record assembly and fan-out: logConsumer
  // ---------------------------------------------------------------------------

  /** The record `logConsumer` builds from one line: the beacon fields, the uid as the
      digest of `refer + ua`, and the classified page. */
  function Assemble(line: string, digest: string -> string): UrlData {
    var data := CutLogFetchData(line);
    UrlData(data, digest(data.refer + data.ua), FormatUrl(data.url, data.time))
  }

  /** The records built from `lines`, in order. */
  function AssembleAll(lines: seq<string>, digest: string -> string): (r: seq<UrlData>)
    ensures |r| == |lines|
  {
    if lines == [] then []
    else AssembleAll(lines[..|lines| - 1], digest) + [Assemble(lines[|lines| - 1], digest)]
  }

  /** Record `i` is built from line `i` alone. */
  lemma {:induction false} AssembleAllAt(lines: seq<string>, digest: string -> string, i: nat)
    requires i < |lines|
    ensures AssembleAll(lines, digest)[i] == Assemble(lines[i], digest)
    decreases |lines|
  {
    if i < |lines| - 1 {
      AssembleAllAt(lines[..|lines| - 1], digest, i);
    }
  }

  /** One worker of `logConsumer` over the lines it takes from the line queue: every
      record goes, identical, to both the PV and the UV queue, in line order. */
  method LogConsumer(lines: seq<string>, digest: string -> string)
    returns (pvQueue: seq<UrlData>, uvQueue: seq<UrlData>)
    ensures pvQueue == AssembleAll(lines, digest) && uvQueue == pvQueue
  {
    pvQueue, uvQueue := [], [];
    var i := 0;
    while i < |lines|
      invariant 0 <= i <= |lines|
      invariant pvQueue == AssembleAll(lines[..i], digest) && uvQueue == pvQueue
    {
      var data := CutLogFetchData(lines[i]);
      var uid := digest(data.refer + data.ua);
      var uData := UrlData(data, uid, FormatUrl(data.url, data.time));
      assert uData == Assemble(lines[i], digest);
      assert lines[..i + 1][..i] == lines[..i];
      assert AssembleAll(lines[..i + 1], digest) == pvQueue + [uData];
      pvQueue := pvQueue + [uData];
      uvQueue := uvQueue + [uData];
      i := i + 1;
    }
    assert lines[..i] == lines;
  }

  /** A line with no beacon, the empty line included, is still counted: as the home
      page, id 1. */
  lemma LineWithoutBeaconCountsAsHome(line: string, digest: string -> string)
    requires !Contains(TrimSpace(line), HandleDig)
    ensures Assemble(line, digest) == UrlData(EmptyDig, digest(""), UrlNode(Home, 1, "", ""))
  {
    CutLogFetchDataWithoutMarker(line);
    assert !Contains("", HandleMovie) && !Contains("", HandleList);
  }

  // ---------------------------------------------------------------------------
  // PV counter
  // ---------------------------------------------------------------------------

  /** `pvCounter`: one ZINCRBY request per record, in order, without condition. */
  method PvCounter(pvQueue: seq<UrlData>) returns (storage: seq<StorageBlock>)
    ensures |storage| == |pvQueue|
    ensures forall i :: 0 <= i < |pvQueue| ==>
      storage[i] == StorageBlock("pv", "ZINCRBY", pvQueue[i].unode)
  {
    storage := [];
    var i := 0;
    while i < |pvQueue|
      invariant 0 <= i <= |pvQueue| && |storage| == i
      invariant forall k :: 0 <= k < i ==> storage[k] == StorageBlock("pv", "ZINCRBY", pvQueue[k].unode)
    {
      storage := storage + [StorageBlock("pv", "ZINCRBY", pvQueue[i].unode)];
      i := i + 1;
    }
  }

  // ---------------------------------------------------------------------------
  // Time buckets: getTime
  // ---------------------------------------------------------------------------

  datatype Granularity = Day | Hour | Min

  function GranularityName(g: Granularity): string {
    match g
    case Day => "day"
    case Hour => "hour"
    case Min => "min"
  }

  /** `t.Unix()` for `time.Parse(layout, logTime)` with the layout of a granularity
      (the zero time's seconds when parsing fails). */
  type Clock = (string, Granularity) -> int

  /** `getTime`: the bucket as a decimal string. */
  function GetTime(clock: Clock, logTime: string, g: Granularity): string {
    Itoa(clock(logTime, g))
  }

  /** Every bucket is a decimal integer. */
  lemma GetTimeDecimal(clock: Clock, logTime: string, g: Granularity)
    ensures IsDecimalInt(GetTime(clock, logTime, g))
  {
    ItoaDecimal(clock(logTime, g));
  }

  // ---------------------------------------------------------------------------
  // UV counter
  // ---------------------------------------------------------------------------

  /** The per-day distinct sets that PFADD maintains, exact in place of HyperLogLog. */
  type Hll = map<string, set<string>>

  /** The dynamic value behind redigo's `interface{}` reply: an integer reply arrives as
      an `int64`; a failed call gives `nil`. `GoInt` is the type that an untyped constant
      such as the `1` of `ret != 1` takes when compared with an interface value. */
  datatype GoValue = GoInt(i: int) | GoInt64(i64: int) | GoNil

  function Members(hll: Hll, key: string): set<string> {
    if key in hll then hll[key] else {}
  }

  /** PFADD's reply: 1 when some element was not yet in the set. */
  function PfAdd(hll: Hll, key: string, elems: set<string>): (r: (Hll, GoValue))
    ensures r.0 == hll[key := Members(hll, key) + elems]
    ensures r.1 == GoInt64(1) <==> !(elems <= Members(hll, key))
    ensures r.1 == GoInt64(0) || r.1 == GoInt64(1)
  {
    var known := Members(hll, key);
    (hll[key := known + elems], GoInt64(if elems <= known then 0 else 1))
  }

  /** The day key of statistics.go:227. */
  function HllKey(clock: Clock, rec: UrlData): string {
    "uv_hpll_" + GetTime(clock, rec.data.time, Day)
  }

  /** The elements the PFADD call adds: the uid, and the words "EX" and "86400", which
      PFADD takes as further elements rather than as an expiry. */
  function PfAddElems(rec: UrlData): set<string> {
    {rec.uid, "EX", "86400"}
  }

  /** The reply of the PFADD for `rec`; `up` is false when the call fails. */
  function UvReply(hll: Hll, rec: UrlData, up: bool, clock: Clock): GoValue {
    if up then PfAdd(hll, HllKey(clock, rec), PfAddElems(rec)).1 else GoNil
  }

  function UvAfter(hll: Hll, rec: UrlData, up: bool, clock: Clock): Hll {
    if up then PfAdd(hll, HllKey(clock, rec), PfAddElems(rec)).0 else hll
  }

  /** The check `ret != 1` of statistics.go:234 as written: an interface holding an
      `int64` equals the constant only if it holds an `int` 1. */
  predicate AdmittedAsWritten(ret: GoValue) {
    ret == GoInt(1)
  }

  /** The evidently intended check: the reply is the integer 1. */
  predicate Admitted(ret: GoValue) {
    ret == GoInt64(1)
  }

  /** The distinct sets after the first `k` records. */
  function HllAt(uvQueue: seq<UrlData>, hll0: Hll, up: seq<bool>, clock: Clock, k: nat): Hll
    requires k <= |uvQueue| && |up| == |uvQueue|
  {
    if k == 0 then hll0
    else UvAfter(HllAt(uvQueue, hll0, up, clock, k - 1), uvQueue[k - 1], up[k - 1], clock)
  }

  /** Whether record `i` is forwarded, under the reply check `check`. */
  predicate Forwarded(uvQueue: seq<UrlData>, hll0: Hll, up: seq<bool>, clock: Clock,
                      check: GoValue -> bool, i: nat)
    requires i < |uvQueue| && |up| == |uvQueue|
  {
    check(UvReply(HllAt(uvQueue, hll0, up, clock, i), uvQueue[i], up[i], clock))
  }

  function UvBlock(rec: UrlData): StorageBlock {
    StorageBlock("uv", "ZINCRBY", rec.unode)
  }

  /** The UV requests emitted for the first `k` records. */
  function UvOut(uvQueue: seq<UrlData>, hll0: Hll, up: seq<bool>, clock: Clock,
                 check: GoValue -> bool, k: nat): seq<StorageBlock>
    requires k <= |uvQueue| && |up| == |uvQueue|
  {
    if k == 0 then []
    else if Forwarded(uvQueue, hll0, up, clock, check, k - 1)
    then UvOut(uvQueue, hll0, up, clock, check, k - 1) + [UvBlock(uvQueue[k - 1])]
    else UvOut(uvQueue, hll0, up, clock, check, k - 1)
  }

  /** `uvCounter` with the intended reply check: a record is forwarded as a UV
      ZINCRBY request exactly when its PFADD succeeds and reports a new element.
      `up[i]` says whether the PFADD for record `i` reaches the store. */
  method UvCounter(uvQueue: seq<UrlData>, hll0: Hll, up: seq<bool>, clock: Clock)
    returns (storage: seq<StorageBlock>, hll: Hll)
    requires |up| == |uvQueue|
    ensures hll == HllAt(uvQueue, hll0, up, clock, |uvQueue|)
    ensures storage == UvOut(uvQueue, hll0, up, clock, Admitted, |uvQueue|)
  {
    storage, hll := [], hll0;
    var i := 0;
    while i < |uvQueue|
      invariant 0 <= i <= |uvQueue|
      invariant hll == HllAt(uvQueue, hll0, up, clock, i)
      invariant storage == UvOut(uvQueue, hll0, up, clock, Admitted, i)
    {
      var data := uvQueue[i];
      var ret := GoNil;
      if up[i] {
        var added := PfAdd(hll, "uv_hpll_" + GetTime(clock, data.data.time, Day), {data.uid, "EX", "86400"});
        hll, ret := added.0, added.1;
      }
      if ret == GoInt64(1) {
        storage := storage + [StorageBlock("uv", "ZINCRBY", data.unode)];
      }
      i := i + 1;
    }
  }

  /** A record is forwarded exactly when its PFADD reaches the store and adds an
      element its day's set did not hold; a failed call drops the record. */
  lemma UvForwardRule(uvQueue: seq<UrlData>, hll0: Hll, up: seq<bool>, clock: Clock, i: nat)
    requires i < |uvQueue| && |up| == |uvQueue|
    ensures Forwarded(uvQueue, hll0, up, clock, Admitted, i)
        <==> up[i] && !(PfAddElems(uvQueue[i]) <= Members(HllAt(uvQueue, hll0, up, clock, i), HllKey(clock, uvQueue[i])))
  {
  }

  /** Sets only grow. */
  lemma {:induction false} HllGrows(uvQueue: seq<UrlData>, hll0: Hll, up: seq<bool>, clock: Clock,
                                    k: nat, m: nat, key: string)
    requires k <= m <= |uvQueue| && |up| == |uvQueue|
    requires key in HllAt(uvQueue, hll0, up, clock, k)
    ensures key in HllAt(uvQueue, hll0, up, clock, m)
    ensures HllAt(uvQueue, hll0, up, clock, k)[key] <= HllAt(uvQueue, hll0, up, clock, m)[key]
    decreases m - k
  {
    if k < m {
      HllGrows(uvQueue, hll0, up, clock, k + 1, m, key);
    }
  }

  /** Each (day key, uid) is forwarded at most once. */
  lemma UvAtMostOncePerDay(uvQueue: seq<UrlData>, hll0: Hll, up: seq<bool>, clock: Clock,
                           i: nat, j: nat)
    requires i < j < |uvQueue| && |up| == |uvQueue|
    requires HllKey(clock, uvQueue[i]) == HllKey(clock, uvQueue[j])
    requires uvQueue[i].uid == uvQueue[j].uid
    requires Forwarded(uvQueue, hll0, up, clock, Admitted, i)
    ensures !Forwarded(uvQueue, hll0, up, clock, Admitted, j)
  {
    var key := HllKey(clock, uvQueue[i]);
    assert HllAt(uvQueue, hll0, up, clock, i + 1) ==
           UvAfter(HllAt(uvQueue, hll0, up, clock, i), uvQueue[i], up[i], clock);
    HllGrows(uvQueue, hll0, up, clock, i + 1, j, key);
    assert PfAddElems(uvQueue[j]) == PfAddElems(uvQueue[i]);
  }

  /** Before record `i`, its uid is not yet in its day's set when no earlier successful
      PFADD on that day added it. */
  lemma {:induction false} UidStaysNew(uvQueue: seq<UrlData>, hll0: Hll, up: seq<bool>, clock: Clock,
                                       i: nat, k: nat)
    requires k <= i < |uvQueue| && |up| == |uvQueue|
    requires var key := HllKey(clock, uvQueue[i]); key !in hll0 || uvQueue[i].uid !in hll0[key]
    requires uvQueue[i].uid != "EX" && uvQueue[i].uid != "86400"
    requires forall j :: 0 <= j < i && up[j] && HllKey(clock, uvQueue[j]) == HllKey(clock, uvQueue[i])
               ==> uvQueue[j].uid != uvQueue[i].uid
    ensures var key := HllKey(clock, uvQueue[i]); var h := HllAt(uvQueue, hll0, up, clock, k);
            key !in h || uvQueue[i].uid !in h[key]
  {
    if k > 0 {
      UidStaysNew(uvQueue, hll0, up, clock, i, k - 1);
    }
  }

  /** The first successful PFADD of a uid on a day forwards the record: a second uid,
      or the same uid on another day, is counted again. */
  lemma UvFirstVisitForwarded(uvQueue: seq<UrlData>, hll0: Hll, up: seq<bool>, clock: Clock, i: nat)
    requires i < |uvQueue| && |up| == |uvQueue| && up[i]
    requires var key := HllKey(clock, uvQueue[i]); key !in hll0 || uvQueue[i].uid !in hll0[key]
    requires uvQueue[i].uid != "EX" && uvQueue[i].uid != "86400"
    requires forall j :: 0 <= j < i && up[j] && HllKey(clock, uvQueue[j]) == HllKey(clock, uvQueue[i])
               ==> uvQueue[j].uid != uvQueue[i].uid
    ensures Forwarded(uvQueue, hll0, up, clock, Admitted, i)
  {
    UidStaysNew(uvQueue, hll0, up, clock, i, i);
  }

  /** As written, `ret != 1` holds for every reply redigo gives, so the UV counter
      forwards nothing at all. */
  lemma {:induction false} UvAsWrittenForwardsNothing(uvQueue: seq<UrlData>, hll0: Hll, up: seq<bool>,
                                                      clock: Clock, k: nat)
    requires k <= |uvQueue| && |up| == |uvQueue|
    ensures UvOut(uvQueue, hll0, up, clock, AdmittedAsWritten, k) == []
  {
    if k > 0 {
      UvAsWrittenForwardsNothing(uvQueue, hll0, up, clock, k - 1);
    }
  }

  // ---------------------------------------------------------------------------
  // Storage writer: dataStorage
  // ---------------------------------------------------------------------------

  /** Sorted sets: key to member to score. */
  type ZStore = map<string, map<int, int>>

  function Score(store: ZStore, key: string, member: int): int {
    if key in store && member in store[key] then store[key][member] else 0
  }

  /** ZINCRBY: raises one member of one sorted set. */
  function ZIncrBy(store: ZStore, key: string, delta: int, member: int): (r: ZStore)
    ensures Score(r, key, member) == Score(store, key, member) + delta
    ensures forall k, m :: k != key || m != member ==> Score(r, k, m) == Score(store, k, m)
  {
    var zset := if key in store then store[key] else map[];
    store[key := zset[member := Score(store, key, member) + delta]]
  }

  /** `redisPool.Get().Do(command, key, 1, member)`: `ok` is false when the call fails,
      which leaves the store as it was; the store understands ZINCRBY only. */
  function Do(store: ZStore, command: string, key: string, member: int, ok: bool): ZStore {
    if ok && command == "ZINCRBY" then ZIncrBy(store, key, 1, member) else store
  }

  function BucketKey(prefix: string, g: Granularity, clock: Clock, t: string): string {
    prefix + GranularityName(g) + "_" + GetTime(clock, t, g)
  }

  /** The six keys of one request: {global, per page type} x {day, hour, min}. */
  function SetKeys(block: StorageBlock, clock: Clock): (keys: seq<string>)
    ensures |keys| == 6
  {
    var prefix := block.counterType + "_";
    var typed := prefix + TypeName(block.unode.unType) + "_";
    var t := block.unode.unTime;
    [BucketKey(prefix, Day, clock, t), BucketKey(prefix, Hour, clock, t), BucketKey(prefix, Min, clock, t),
     BucketKey(typed, Day, clock, t), BucketKey(typed, Hour, clock, t), BucketKey(typed, Min, clock, t)]
  }

  /** Every key starts with the counter type and '_'; the last three go on with the
      page type and '_'. */
  lemma SetKeysPrefixes(block: StorageBlock, clock: Clock)
    ensures var keys := SetKeys(block, clock);
            (forall i :: 0 <= i < 6 ==> block.counterType + "_" <= keys[i])
            && forall i :: 3 <= i < 6 ==> block.counterType + "_" + TypeName(block.unode.unType) + "_" <= keys[i]
  {
  }

  /** The six keys of a request are pairwise distinct, so no write is counted twice. */
  lemma SetKeysDistinct(block: StorageBlock, clock: Clock)
    ensures var keys := SetKeys(block, clock);
            forall i, j :: 0 <= i < j < 6 ==> keys[i] != keys[j]
  {
    var keys := SetKeys(block, clock);
    var n := |block.counterType| + 1;
    var name := TypeName(block.unode.unType);
    var m := n + |name| + 1;
    assert keys[0][n] == 'd' && keys[1][n] == 'h' && keys[2][n] == 'm';
    assert keys[1][n + 1] == 'o' && keys[1][n + 2] == 'u';
    assert keys[2][n + 1] == 'i';
    assert keys[3][n] == keys[4][n] == keys[5][n] == name[0];
    assert keys[3][n + 1] == keys[4][n + 1] == keys[5][n + 1] == name[1];
    assert keys[3][n + 2] == keys[4][n + 2] == keys[5][n + 2] == name[2];
    assert keys[3][m] == 'd' && keys[4][m] == 'h' && keys[5][m] == 'm';
  }

  /** The store after `Do` on the first `k` keys, with outcomes `oks`. */
  function WriteKeys(store: ZStore, command: string, keys: seq<string>, member: int,
                     oks: seq<bool>, k: nat): ZStore
    requires k <= |keys| == |oks|
  {
    if k == 0 then store
    else Do(WriteKeys(store, command, keys, member, oks, k - 1), command, keys[k - 1], member, oks[k - 1])
  }

  /** The keys among the first `k` whose write succeeded. */
  function Written(keys: seq<string>, oks: seq<bool>, k: nat): set<string>
    requires k <= |keys| == |oks|
  {
    set i | 0 <= i < k && oks[i] :: keys[i]
  }

  /** Writing distinct keys raises `member` by exactly 1 under each key whose write
      succeeded, and changes nothing else. */
  lemma {:induction false} WriteKeysEffect(store: ZStore, keys: seq<string>, member: int,
                                           oks: seq<bool>, k: nat, key: string, m: int)
    requires k <= |keys| == |oks|
    requires forall i, j :: 0 <= i < j < |keys| ==> keys[i] != keys[j]
    ensures Score(WriteKeys(store, "ZINCRBY", keys, member, oks, k), key, m)
         == Score(store, key, m) + (if m == member && key in Written(keys, oks, k) then 1 else 0)
  {
    if k > 0 {
      WriteKeysEffect(store, keys, member, oks, k - 1, key, m);
      var w := Written(keys, oks, k - 1);
      assert Written(keys, oks, k) == if oks[k - 1] then w + {keys[k - 1]} else w;
      assert keys[k - 1] !in w;
    }
  }

  /** The store after the first `k` requests; `writeOk[i][j]` is the outcome of the
      write of key `j` of request `i`. */
  function StoreAll(storage: seq<StorageBlock>, store: ZStore, clock: Clock,
                    writeOk: seq<seq<bool>>, k: nat): ZStore
    requires k <= |storage| == |writeOk|
    requires forall i :: 0 <= i < |writeOk| ==> |writeOk[i]| == 6
  {
    if k == 0 then store
    else
      var b := storage[k - 1];
      WriteKeys(StoreAll(storage, store, clock, writeOk, k - 1), b.storageModel,
                SetKeys(b, clock), b.unode.unRid, writeOk[k - 1], 6)
  }

  /** Request `i` applies its six writes to the store left by the requests before it. */
  lemma StoreAllNext(storage: seq<StorageBlock>, store: ZStore, clock: Clock,
                     writeOk: seq<seq<bool>>, i: nat)
    requires i < |storage| == |writeOk|
    requires forall i :: 0 <= i < |writeOk| ==> |writeOk[i]| == 6
    ensures |SetKeys(storage[i], clock)| == |writeOk[i]|
    ensures StoreAll(storage, store, clock, writeOk, i + 1)
         == WriteKeys(StoreAll(storage, store, clock, writeOk, i), storage[i].storageModel,
                      SetKeys(storage[i], clock), storage[i].unode.unRid, writeOk[i], |writeOk[i]|)
  {
  }

  /** `dataStorage`: six ZINCRBY writes per request; a failed write is logged and the
      loop goes on with the next key. */
  method DataStorage(storage: seq<StorageBlock>, store0: ZStore, clock: Clock, writeOk: seq<seq<bool>>)
    returns (store: ZStore)
    requires |writeOk| == |storage|
    requires forall i :: 0 <= i < |writeOk| ==> |writeOk[i]| == 6
    ensures store == StoreAll(storage, store0, clock, writeOk, |storage|)
  {
    store := store0;
    var i := 0;
    while i < |storage|
      invariant 0 <= i <= |storage|
      invariant store == StoreAll(storage, store0, clock, writeOk, i)
    {
      var block := storage[i];
      StoreAllNext(storage, store0, clock, writeOk, i);
      store := WriteBlock(store, block.storageModel, SetKeys(block, clock), block.unode.unRid, writeOk[i]);
      i := i + 1;
    }
  }

  /** The inner loop of `dataStorage`: one write per key of a request, in order. */
  method WriteBlock(store0: ZStore, command: string, setKeys: seq<string>, rowId: int, oks: seq<bool>)
    returns (store: ZStore)
    requires |oks| == |setKeys|
    ensures store == WriteKeys(store0, command, setKeys, rowId, oks, |setKeys|)
  {
    store := store0;
    var j := 0;
    while j < |setKeys|
      invariant 0 <= j <= |setKeys|
      invariant store == WriteKeys(store0, command, setKeys, rowId, oks, j)
    {
      store := Do(store, command, setKeys[j], rowId, oks[j]);
      j := j + 1;
    }
  }

  /** One ZINCRBY request raises member `unRid` by 1 under each of its six keys whose
      write succeeded, whatever happened to the others; no other key or member changes. */
  lemma StoreBlockEffect(b: StorageBlock, store: ZStore, clock: Clock, oks: seq<bool>, key: string, m: int)
    requires |oks| == 6 && b.storageModel == "ZINCRBY"
    ensures Score(WriteKeys(store, "ZINCRBY", SetKeys(b, clock), b.unode.unRid, oks, 6), key, m)
         == Score(store, key, m)
            + (if m == b.unode.unRid && key in Written(SetKeys(b, clock), oks, 6) then 1 else 0)
  {
    SetKeysDistinct(b, clock);
    WriteKeysEffect(store, SetKeys(b, clock), b.unode.unRid, oks, 6, key, m);
  }

  const AllOk: seq<bool> := [true, true, true, true, true, true]

  /** No deduplication: `n` requests for the same page and time, all written, raise
      each of its six keys by exactly `n`. */
  lemma {:induction false} RepeatedRequestsCountN(storage: seq<StorageBlock>, b: StorageBlock, store: ZStore,
                                                  clock: Clock, writeOk: seq<seq<bool>>, k: nat, key: string)
    requires k <= |storage| == |writeOk| && b.storageModel == "ZINCRBY"
    requires forall i :: 0 <= i < |storage| ==> storage[i] == b && writeOk[i] == AllOk
    requires key in SetKeys(b, clock)
    ensures Score(StoreAll(storage, store, clock, writeOk, k), key, b.unode.unRid)
         == Score(store, key, b.unode.unRid) + k
  {
    if k > 0 {
      RepeatedRequestsCountN(storage, b, store, clock, writeOk, k - 1, key);
      StoreBlockEffect(b, StoreAll(storage, store, clock, writeOk, k - 1), clock, AllOk, key, b.unode.unRid);
      AllWritten(SetKeys(b, clock), key);
    }
  }

  /** When every write succeeds, every key is written. */
  lemma AllWritten(keys: seq<string>, key: string)
    requires |keys| == 6 && key in keys
    ensures key in Written(keys, AllOk, 6)
  {
  }
}
