/** The test-log generator (`batch_create_log.go`): the site's URL list built from
    three templates, one nginx access-log line per visit carrying the url-encoded
    beacon, and the main loop that draws the visits.

    The random source and the output file are left out: the draws are a parameter
    (`rolls`, the successive results of `r.Intn`) and the log text is returned. */
module BatchCreateLog {
  import opened GoStrings
  import opened NetUrl

  /** The user agents the generator draws from (batch_create_log.go:16-44). */
  const UaList: seq<string> := [
    "Mozilla/5.0 (Macintosh; U; Intel Mac OS X 10_6_8; en-us) AppleWebKit/534.50 (KHTML, like Gecko) Version/5.1 Safari/534.50",
    "Mozilla/5.0 (Windows; U; Windows NT 6.1; en-us) AppleWebKit/534.50 (KHTML, like Gecko) Version/5.1 Safari/534.50",
    "Mozilla/5.0 (compatible; MSIE 9.0; Windows NT 6.1; Trident/5.0;",
    "Mozilla/4.0 (compatible; MSIE 8.0; Windows NT 6.0; Trident/4.0)",
    "Mozilla/4.0 (compatible; MSIE 7.0; Windows NT 6.0)",
    "Mozilla/4.0 (compatible; MSIE 6.0; Windows NT 5.1)",
    "Mozilla/5.0 (Macintosh; Intel Mac OS X 10.6; rv:2.0.1) Gecko/20100101 Firefox/4.0.1",
    "Mozilla/5.0 (Windows NT 6.1; rv:2.0.1) Gecko/20100101 Firefox/4.0.1",
    "Opera/9.80 (Macintosh; Intel Mac OS X 10.6.8; U; en) Presto/2.8.131 Version/11.11",
    "Opera/9.80 (Windows NT 6.1; U; en) Presto/2.8.131 Version/11.11",
    "Mozilla/5.0 (Macintosh; Intel Mac OS X 10_7_0) AppleWebKit/535.11 (KHTML, like Gecko) Chrome/17.0.963.56 Safari/535.11",
    "Mozilla/4.0 (compatible; MSIE 7.0; Windows NT 5.1; Maxthon 2.0)",
    "Mozilla/4.0 (compatible; MSIE 7.0; Windows NT 5.1; TencentTraveler 4.0)"
  ]

  /** A URL template: `target` in `url` is replaced by each id in `[start, end)`; an
      empty target stands for the single URL `url`. */
  datatype Resource = Resource(url: string, target: string, start: int, end: int)

  const Site := "http://localhost:8888"
  const IdSlot := "{$id}"
  const ListTemplate := Site + "/list/" + IdSlot + ".html"
  const MovieTemplate := Site + "/movie/" + IdSlot + ".html"

  const HomeResource := Resource(Site + "/", "", 0, 0)
  const ListResource := Resource(ListTemplate, IdSlot, 1, 21)
  const MovieResource := Resource(MovieTemplate, IdSlot, 0, 12924)

  /** `ruleResource`: the home page, list pages 1..20 and movie pages 0..12923. */
  function RuleResource(): seq<Resource> {
    [HomeResource, ListResource, MovieResource]
  }

  /** The URLs for ids `start .. k-1` of a template. */
  function Range(r: Resource, k: int): (urls: seq<string>)
    requires |r.target| > 0
    ensures |urls| == if k <= r.start then 0 else k - r.start
    decreases k - r.start
  {
    if k <= r.start then []
    else Range(r, k - 1) + [Replace(r.url, r.target, Itoa(k - 1))]
  }

  /** The URLs of one resource. */
  function Expand(r: Resource): seq<string> {
    if |r.target| == 0 then [r.url] else Range(r, r.end)
  }

  /** The URLs of the first `k` resources, in order. */
  function Urls(res: seq<Resource>, k: nat): seq<string>
    requires k <= |res|
  {
    if k == 0 then [] else Urls(res, k - 1) + Expand(res[k - 1])
  }

  /** `buildUrl`. */
  method BuildUrl(res: seq<Resource>) returns (list: seq<string>)
    ensures list == Urls(res, |res|)
  {
    list := [];
    var n := 0;
    while n < |res|
      invariant 0 <= n <= |res|
      invariant list == Urls(res, n)
    {
      list := AppendResource(list, res[n]);
      assert Urls(res, n + 1) == Urls(res, n) + Expand(res[n]);
      n := n + 1;
    }
  }

  /** One pass of `buildUrl`'s loop: a resource without a target adds its URL as it
      is, any other adds the template with each id from `start` to `end - 1`. */
  method AppendResource(done: seq<string>, resItem: Resource) returns (list: seq<string>)
    ensures list == done + Expand(resItem)
  {
    if |resItem.target| == 0 {
      list := done + [resItem.url];
    } else {
      list := AppendRange(done, resItem);
    }
  }

  /** The inner loop of `buildUrl`: the template with each id from `start` to
      `end - 1` in turn, appended to `done`. */
  method AppendRange(done: seq<string>, resItem: Resource) returns (list: seq<string>)
    requires |resItem.target| > 0
    ensures list == done + Expand(resItem)
  {
    list := done;
    var i := resItem.start;
    while i < resItem.end
      invariant resItem.start <= i && (i <= resItem.end || i == resItem.start)
      invariant list == done + Range(resItem, i)
    {
      var urlStr := Replace(resItem.url, resItem.target, Itoa(i));
      list := list + [urlStr];
      i := i + 1;
    }
    if resItem.end < resItem.start {
      assert Range(resItem, resItem.end) == [] == Range(resItem, i);
    }
  }

  /** The `j`-th URL of a template is the template with id `start + j`. */
  lemma {:induction false} RangeAt(r: Resource, k: int, j: nat)
    requires |r.target| > 0 && j < k - r.start
    ensures Range(r, k)[j] == Replace(r.url, r.target, Itoa(r.start + j))
    decreases k - r.start
  {
    if j < k - 1 - r.start {
      RangeAt(r, k - 1, j);
    }
  }

  /** A template holding the id slot once, between two slot-free parts, yields the
      parts around the decimal id. */
  lemma FillSlot(a: string, b: string, n: int)
    requires '{' !in a && '{' !in b
    ensures Replace(a + IdSlot + b, IdSlot, Itoa(n)) == a + Itoa(n) + b
  {
    NotContainedByChar(b, IdSlot, 0);
    ReplaceOnce(a, IdSlot, Itoa(n), b);
  }

  /** The `j`-th URL of a template `a + "{$id}" + b` is the decimal id `start + j`
      between `a` and `b`. */
  lemma TemplateUrlAt(r: Resource, a: string, b: string, k: int, j: nat)
    requires r.url == a + IdSlot + b && r.target == IdSlot
    requires '{' !in a && '{' !in b && j < k - r.start
    ensures Range(r, k)[j] == a + Itoa(r.start + j) + b
  {
    RangeAt(r, k, j);
    FillSlot(a, b, r.start + j);
  }

  function ListUrl(n: int): string { Site + "/list/" + Itoa(n) + ".html" }

  function MovieUrl(n: int): string { Site + "/movie/" + Itoa(n) + ".html" }

  lemma SiteUrlsShape()
    ensures Urls(RuleResource(), 3) == [Site + "/"] + Range(ListResource, 21) + Range(MovieResource, 12924)
  {
  }

  /** The site's URL list holds 12945 URLs, the home page first. */
  lemma SiteUrlsCount()
    ensures |Urls(RuleResource(), 3)| == 12945
    ensures Urls(RuleResource(), 3)[0] == Site + "/"
  {
  }

  /** List page `j` of the list template. */
  lemma ListPageAt(j: nat)
    requires 1 <= j <= 20
    ensures Range(ListResource, 21)[j - 1] == ListUrl(j)
  {
    assert '{' !in Site + "/list/";
    TemplateUrlAt(ListResource, Site + "/list/", ".html", 21, j - 1);
  }

  /** Movie page `n` of the movie template. */
  lemma MoviePageAt(n: nat)
    requires n < 12924
    ensures Range(MovieResource, 12924)[n] == MovieUrl(n)
  {
    assert '{' !in Site + "/movie/";
    TemplateUrlAt(MovieResource, Site + "/movie/", ".html", 12924, n);
  }

  /** Positions 1..20 of the site's URL list are the list pages 1..20. */
  lemma SiteUrlsList(j: nat)
    requires 1 <= j <= 20
    ensures Urls(RuleResource(), 3)[j] == ListUrl(j)
  {
    SiteUrlsShape();
    ListPageAt(j);
  }

  /** Positions 21..12944 of the site's URL list are the movie pages 0..12923. */
  lemma SiteUrlsMovie(j: nat)
    requires 21 <= j < 12945
    ensures Urls(RuleResource(), 3)[j] == MovieUrl(j - 21)
  {
    SiteUrlsShape();
    MoviePageAt(j - 21);
  }

  // ---------------------------------------------------------------------------
  // makeLog
  // ---------------------------------------------------------------------------

  /** The access-log template of batch_create_log.go:109-110, in pieces:
      `LogHead + ParamsSlot + LogMid + UaSlot + LogSuffix`. */
  const LogPrefix := "127.0.0.1 - - " + "[08/Mar/2018:00:48:34 " + "+0800] \"OPTIONS"
  const LogHead := LogPrefix + " /dig?"
  const ParamsSlot := "{$paramsStr}"
  const LogMid := " HTTP/" + "1.1\" 200 43 \"-\" \""
  const UaSlot := "{$ua}"
  const LogSuffix := "\" \"-\""
  const LogTemplate := LogHead + ParamsSlot + LogMid + UaSlot + LogSuffix

  /** The beacon parameters as `makeLog` sets them on an empty `url.Values`: `time`,
      then `url`, `refer` and `ua`. */
  function LogParams(currentUrl: string, referUrl: string, ua: string): (v: Values)
    ensures IsByteString(currentUrl) && IsByteString(referUrl) && IsByteString(ua) ==> IsByteValues(v)
  {
    Set(Set(Set(Set([], "time", "1"), "url", currentUrl), "refer", referUrl), "ua", ua)
  }

  /** Each parameter reads back as the value it was set to. */
  lemma LogParamsGet(currentUrl: string, referUrl: string, ua: string)
    ensures var v := LogParams(currentUrl, referUrl, ua);
            Get(v, "time") == "1" && Get(v, "url") == currentUrl
            && Get(v, "refer") == referUrl && Get(v, "ua") == ua
  {
    var v1 := Set([], "time", "1");
    var v2 := Set(v1, "url", currentUrl);
    var v3 := Set(v2, "refer", referUrl);
    forall k | k in ["time", "url", "refer", "ua"]
      ensures Get(Set(v3, "ua", ua), k)
           == if k == "ua" then ua else if k == "refer" then referUrl
              else if k == "url" then currentUrl else "1"
    {
      SetGet(v3, "ua", ua, k);
      SetGet(v2, "refer", referUrl, k);
      SetGet(v1, "url", currentUrl, k);
      SetGet([], "time", "1", k);
    }
  }

  /** One `key=value` item with an unescaped key and an escaped value. */
  function Param(key: string, value: string): string
  {
    key + "=" + QueryEscape(value)
  }

  /** `u.Encode()` of the parameters: the keys in byte order, `refer`, `time`, `ua`,
      `url`, each with its escaped value, grouped as `Join` builds the text (proved in
      `ParamsTextIsEncode`). */
  function ParamsText(currentUrl: string, referUrl: string, ua: string): string
  {
    Param("refer", referUrl) + "&" + ("time=1" + "&" + (Param("ua", ua) + "&" + Param("url", currentUrl)))
  }

  /** A key that escaping leaves alone is written as it is. */
  lemma EncodeParam(key: string, value: string)
    requires IsByteString(value)
    requires forall i :: 0 <= i < |key| ==> IsUnreserved(key[i])
    ensures IsByteString(key) && EncodePair((key, value)) == Param(key, value)
  {
    QueryEscapeUnreserved(key);
  }

  /** The time item is the plain text "time=1". */
  lemma EncodeTime()
    ensures EncodePair(("time", "1")) == "time=1"
  {
  }

  /** The parameter text is the four pairs, keys in byte order, joined. */
  lemma ParamsTextIsJoin(currentUrl: string, referUrl: string, ua: string)
    requires IsByteString(currentUrl) && IsByteString(referUrl) && IsByteString(ua)
    ensures ParamsText(currentUrl, referUrl, ua)
         == Join([("refer", referUrl), ("time", "1"), ("ua", ua), ("url", currentUrl)])
  {
    EncodeParam("refer", referUrl);
    EncodeTime();
    EncodeParam("ua", ua);
    EncodeParam("url", currentUrl);
    JoinFour(("refer", referUrl), ("time", "1"), ("ua", ua), ("url", currentUrl));
  }

  /** `makeLog`: the template with the encoded parameters and the raw user agent in
      their slots (proved equal to the two `strings.Replace` calls in
      `MakeLogFillsTemplate`). */
  function MakeLog(currentUrl: string, referUrl: string, ua: string): string
  {
    LogHead + ParamsText(currentUrl, referUrl, ua) + LogMid + ua + LogSuffix
  }

  /** The four `Set` calls leave the pairs newest first. */
  lemma LogParamsPairs(currentUrl: string, referUrl: string, ua: string)
    ensures LogParams(currentUrl, referUrl, ua)
         == [("ua", ua), ("refer", referUrl), ("url", currentUrl), ("time", "1")]
  {
    var v1 := Set([], "time", "1");
    assert v1 == [("time", "1")];
    var v2 := Set(v1, "url", currentUrl);
    assert RemoveKey(v1, "url") == v1;
    assert v2 == [("url", currentUrl), ("time", "1")];
    var v3 := Set(v2, "refer", referUrl);
    assert RemoveKey(v2[1..], "refer") == v2[1..];
    assert RemoveKey(v2, "refer") == v2;
    assert v3 == [("refer", referUrl), ("url", currentUrl), ("time", "1")];
    assert RemoveKey(v3[2..], "ua") == v3[2..];
    assert RemoveKey(v3[1..], "ua") == v3[1..];
    assert RemoveKey(v3, "ua") == v3;
  }

  lemma SortLastThree(referUrl: string, currentUrl: string)
    ensures SortByKey([("refer", referUrl), ("url", currentUrl), ("time", "1")])
         == [("refer", referUrl), ("time", "1"), ("url", currentUrl)]
  {
    var refer, url, time := ("refer", referUrl), ("url", currentUrl), ("time", "1");
    var v := [refer, url, time];
    assert v[1..] == [url, time] && v[1..][1..] == [time];
    assert SortByKey([time]) == [time];
    assert KeyLess("time", "url");
    assert Insert(url, []) == [url];
    assert SortByKey([url, time]) == [time, url];
    assert !KeyLess("time", "refer");
  }

  lemma InsertUa(ua: string, referUrl: string, currentUrl: string)
    ensures Insert(("ua", ua), [("refer", referUrl), ("time", "1"), ("url", currentUrl)])
         == [("refer", referUrl), ("time", "1"), ("ua", ua), ("url", currentUrl)]
  {
    var refer, url, time, ua_ := ("refer", referUrl), ("url", currentUrl), ("time", "1"), ("ua", ua);
    var s := [refer, time, url];
    assert s[1..] == [time, url] && s[1..][1..] == [url];
    assert !KeyLess("url", "ua");
    assert Insert(ua_, [url]) == [ua_, url];
    assert KeyLess("time", "ua");
    assert Insert(ua_, [time, url]) == [time, ua_, url];
    assert KeyLess("refer", "ua");
  }

  /** `u.Encode()` sorts the four keys into `refer`, `time`, `ua`, `url`. */
  lemma ParamsTextIsEncode(currentUrl: string, referUrl: string, ua: string)
    requires IsByteString(currentUrl) && IsByteString(referUrl) && IsByteString(ua)
    ensures Encode(LogParams(currentUrl, referUrl, ua)) == ParamsText(currentUrl, referUrl, ua)
  {
    LogParamsPairs(currentUrl, referUrl, ua);
    ParamsTextIsJoin(currentUrl, referUrl, ua);
    var v := [("ua", ua), ("refer", referUrl), ("url", currentUrl), ("time", "1")];
    assert v[1..] == [("refer", referUrl), ("url", currentUrl), ("time", "1")];
    SortLastThree(referUrl, currentUrl);
    InsertUa(ua, referUrl, currentUrl);
    assert SortByKey(v) == [("refer", referUrl), ("time", "1"), ("ua", ua), ("url", currentUrl)];
  }

  /** The fixed parts of the template hold neither '{' nor 'p'. */
  lemma TemplateHasNoSlotBytes()
    ensures '{' !in LogHead && '{' !in LogMid && '{' !in LogSuffix
    ensures 'p' !in LogMid && 'p' !in LogSuffix
  {
  }

  /** Replacing the two slots of a template whose fixed parts hold no brace. */
  lemma FillSlots(a: string, m: string, z: string, p: string, ua: string)
    requires '{' !in a && '{' !in m && '{' !in z && '{' !in p
    requires 'p' !in m && 'p' !in z
    ensures Replace(Replace(a + ParamsSlot + m + UaSlot + z, ParamsSlot, p), UaSlot, ua)
         == a + p + m + ua + z
  {
    var rest := m + UaSlot + z;
    assert a + ParamsSlot + m + UaSlot + z == a + ParamsSlot + rest;
    assert 'p' !in rest;
    NotContainedByChar(rest, ParamsSlot, 2);
    ReplaceOnce(a, ParamsSlot, p, rest);
    var log := a + p + m;
    assert a + p + rest == log + UaSlot + z;
    assert '{' !in log;
    NotContainedByChar(z, UaSlot, 0);
    ReplaceOnce(log, UaSlot, ua, z);
  }

  /** The encoded parameters never hold a brace. */
  lemma ParamsHaveNoBrace(currentUrl: string, referUrl: string, ua: string)
    requires IsByteString(currentUrl) && IsByteString(referUrl) && IsByteString(ua)
    ensures '{' !in ParamsText(currentUrl, referUrl, ua)
  {
    var e := ParamsText(currentUrl, referUrl, ua);
    ParamsTextFormText(currentUrl, referUrl, ua);
    forall i | 0 <= i < |e| ensures e[i] != '{' {
      assert IsFormByte(e[i]);
    }
  }

  /** A parameter with a plain key is form text. */
  lemma ParamFormText(key: string, value: string)
    requires IsByteString(value)
    requires forall i :: 0 <= i < |key| ==> IsUnreserved(key[i])
    ensures IsFormText(Param(key, value))
  {
    QueryEscapeBytes(value);
    assert IsFormText(key + "=");
    FormTextAppend(key + "=", QueryEscape(value));
  }

  /** The parameter text holds only form bytes. */
  lemma ParamsTextFormText(currentUrl: string, referUrl: string, ua: string)
    requires IsByteString(currentUrl) && IsByteString(referUrl) && IsByteString(ua)
    ensures IsFormText(ParamsText(currentUrl, referUrl, ua))
  {
    var refer, ua', url := Param("refer", referUrl), Param("ua", ua), Param("url", currentUrl);
    ParamFormText("refer", referUrl);
    ParamFormText("ua", ua);
    ParamFormText("url", currentUrl);
    assert IsFormText("&") && IsFormText("time=1");
    FormTextAppend(url, "");
    FormTextAppend(ua' + "&", url);
    FormTextAppend(ua', "&");
    FormTextAppend("time=1" + "&", ua' + "&" + url);
    FormTextAppend("time=1", "&");
    FormTextAppend(refer + "&", "time=1" + "&" + (ua' + "&" + url));
    FormTextAppend(refer, "&");
  }

  /** `makeLog` as written: `{$paramsStr}` replaced by `u.Encode()`, then `{$ua}` by
      the raw user agent. */
  lemma MakeLogFillsTemplate(currentUrl: string, referUrl: string, ua: string)
    requires IsByteString(currentUrl) && IsByteString(referUrl) && IsByteString(ua)
    ensures MakeLog(currentUrl, referUrl, ua)
         == Replace(Replace(LogTemplate, ParamsSlot, Encode(LogParams(currentUrl, referUrl, ua))), UaSlot, ua)
  {
    ParamsTextIsEncode(currentUrl, referUrl, ua);
    ParamsHaveNoBrace(currentUrl, referUrl, ua);
    TemplateHasNoSlotBytes();
    FillSlots(LogHead, LogMid, LogSuffix, ParamsText(currentUrl, referUrl, ua), ua);
  }

  // ---------------------------------------------------------------------------
  // randInt and the main loop
  // ---------------------------------------------------------------------------

  datatype Draw = Drawn(value: int) | Panic

  /** `randInt(min, max)` given the random source's draw `roll`: `r.Intn(max-min) + min`,
      which yields a value in `[min, max)` and panics when `max == min`; `max` itself
      when `min > max`. The difference is taken without Go's 64-bit wrap-around. */
  function RandInt(min: int, max: int, roll: nat): (d: Draw)
    ensures min < max ==> d.Drawn? && min <= d.value < max
    ensures min == max <==> d.Panic?
    ensures min > max ==> d == Drawn(max)
  {
    if min > max then Drawn(max)
    else if min == max then Panic
    else Drawn(roll % (max - min) + min)
  }

  /** Every value of `[min, max)` is drawn for some roll. */
  lemma RandIntReaches(min: int, max: int, v: int)
    requires min <= v < max
    ensures RandInt(min, max, (v - min) as nat) == Drawn(v)
  {
  }

  /** The pick `randInt(0, len-1)` makes from a list of `len` items: never the last
      item; a panic for a one-item list. */
  function Pick(len: int, roll: nat): (d: Draw)
    ensures len >= 2 ==> d.Drawn? && 0 <= d.value < len - 1
    ensures len == 1 <==> d.Panic?
  {
    RandInt(0, len - 1, roll)
  }

  /** The list positions drawn for one visit: page, referrer and user agent. */
  type Pickup = (int, int, int)

  /** Every drawn position lies inside its list. */
  predicate InRange(picks: seq<Pickup>, nList: int, nUas: int) {
    forall i :: 0 <= i < |picks| ==>
      0 <= picks[i].0 < nList && 0 <= picks[i].1 < nList && 0 <= picks[i].2 < nUas
  }

  /** The three draws of visit `i` (rolls `3i`, `3i+1`, `3i+2`): the page, the
      referrer and the user agent, or `None` for a panic: `r.Intn(0)`, or a position
      outside its list. */
  function NextPick(nList: int, nUas: int, rolls: seq<nat>, i: nat): (p: Option<Pickup>)
    requires 3 * i + 3 <= |rolls|
    ensures p.Some? ==> 0 <= p.value.0 < nList && 0 <= p.value.1 < nList && 0 <= p.value.2 < nUas
  {
    var c := Pick(nList, rolls[3 * i]);
    var r := Pick(nList, rolls[3 * i + 1]);
    var u := Pick(nUas, rolls[3 * i + 2]);
    if c.Panic? || r.Panic? || u.Panic? then None
    else if !(0 <= c.value < nList && 0 <= r.value < nList && 0 <= u.value < nUas) then None
    else Some((c.value, r.value, u.value))
  }

  /** The positions drawn for visits `0 .. k-1`, or `None` when one of them panics. */
  function Draws(nList: int, nUas: int, rolls: seq<nat>, k: nat): (d: Option<seq<Pickup>>)
    requires 3 * k <= |rolls|
    ensures d.Some? ==> |d.value| == k && InRange(d.value, nList, nUas)
  {
    if k == 0 then Some([])
    else match Draws(nList, nUas, rolls, k - 1)
      case None => None
      case Some(prev) =>
        match NextPick(nList, nUas, rolls, k - 1)
        case None => None
        case Some(p) => Some(prev + [p])
  }

  /** The text `main` builds for `k` visits, or `None` when it panics first. */
  function LogLines(list: seq<string>, uas: seq<string>, rolls: seq<nat>, k: nat): Option<string>
    requires 3 * k <= |rolls|
  {
    if k == 0 then Some("")
    else match LogLines(list, uas, rolls, k - 1)
      case None => None
      case Some(prev) =>
        match NextPick(|list|, |uas|, rolls, k - 1)
        case None => None
        case Some(p) => Some(prev + MakeLog(list[p.0], list[p.1], uas[p.2]) + "\n")
  }

  /** The run panics exactly when one of its draws does. */
  lemma {:induction false} LogLinesDraws(list: seq<string>, uas: seq<string>, rolls: seq<nat>, k: nat)
    requires 3 * k <= |rolls|
    ensures LogLines(list, uas, rolls, k).None? <==> Draws(|list|, |uas|, rolls, k).None?
  {
    if k > 0 {
      LogLinesDraws(list, uas, rolls, k - 1);
    }
  }

  /** A panic ends the run: no later visit is drawn. */
  lemma {:induction false} DrawsPanicEnds(nList: int, nUas: int, rolls: seq<nat>, k: nat, m: nat)
    requires k <= m && 3 * m <= |rolls|
    requires Draws(nList, nUas, rolls, k) == None
    ensures Draws(nList, nUas, rolls, m) == None
    decreases m - k
  {
    if k < m {
      DrawsPanicEnds(nList, nUas, rolls, k + 1, m);
    }
  }

  /** A panic ends the run: the text of no later count exists either. */
  lemma LogLinesPanicEnds(list: seq<string>, uas: seq<string>, rolls: seq<nat>, k: nat, m: nat)
    requires k <= m && 3 * m <= |rolls|
    requires LogLines(list, uas, rolls, k) == None
    ensures LogLines(list, uas, rolls, m) == None
  {
  }

  /** One pass of `main`'s loop: the three draws and, unless one of them panics, the
      visit's line appended to the text so far. */
  method AppendVisit(list: seq<string>, uas: seq<string>, rolls: seq<nat>, i: nat, out: string)
    returns (next: Option<string>)
    requires 3 * i + 3 <= |rolls|
    requires LogLines(list, uas, rolls, i) == Some(out)
    ensures next == LogLines(list, uas, rolls, i + 1)
  {
    var p := NextPick(|list|, |uas|, rolls, i);
    if p.None? {
      return None;
    }
    next := Some(out + MakeLog(list[p.value.0], list[p.value.1], uas[p.value.2]) + "\n");
  }

  /** The loop of `main`: `total` lines from the URL list and the user-agent list. */
  method GenerateLog(list: seq<string>, uas: seq<string>, total: int, rolls: seq<nat>)
    returns (logStr: Option<string>)
    requires total <= 0 || 3 * total <= |rolls|
    ensures total <= 0 ==> logStr == Some("")
    ensures total > 0 ==> logStr == LogLines(list, uas, rolls, total)
  {
    var out := "";
    var i := 0;
    while i < total
      invariant 0 <= i <= (if total > 0 then total else 0)
      invariant LogLines(list, uas, rolls, i) == Some(out)
    {
      var next := AppendVisit(list, uas, rolls, i, out);
      if next.None? {
        LogLinesPanicEnds(list, uas, rolls, i + 1, total);
        return None;
      }
      out := next.value;
      i := i + 1;
    }
    return Some(out);
  }

  /** With at least two URLs and two user agents nothing panics. */
  lemma {:induction false} DrawsSucceed(nList: int, nUas: int, rolls: seq<nat>, k: nat)
    requires 3 * k <= |rolls| && nList >= 2 && nUas >= 2
    ensures Draws(nList, nUas, rolls, k).Some?
  {
    if k > 0 {
      DrawsSucceed(nList, nUas, rolls, k - 1);
    }
  }

  /** A list of one item makes `randInt(0, 0)` call `r.Intn(0)`, which panics. */
  lemma SingleItemListPanics(list: seq<string>, uas: seq<string>, rolls: seq<nat>)
    requires |list| == 1 && 3 <= |rolls|
    ensures LogLines(list, uas, rolls, 1) == None
  {
  }
}
