/** The two programs against each other: a line written by the generator is read back
    by the counter with the fields it was written with, and every URL the generator
    draws is classified as the page it names. */
module RoundTrip {
  import opened GoStrings
  import opened NetUrl
  import opened Statistics
  import opened BatchCreateLog

  /** The text after " HTTP/" in a generated line. */
  function LogRest(ua: string): string {
    "1.1\" 200 43 \"-\" \"" + ua + LogSuffix
  }

  /** A generated line in the form the beacon parser takes apart. */
  lemma GeneratedLineSplits(currentUrl: string, referUrl: string, ua: string)
    requires IsByteString(currentUrl) && IsByteString(referUrl) && IsByteString(ua)
    ensures MakeLog(currentUrl, referUrl, ua)
         == LogPrefix + HandleDig + ParamsText(currentUrl, referUrl, ua) + HandleHttp + LogRest(ua)
  {
  }

  /** Nothing before the beacon marker looks like one. */
  lemma PrefixHasNoMarker()
    ensures !Contains(LogPrefix + " /dig", HandleDig)
  {
    assert '?' !in "127.0.0.1 - - ";
    assert '?' !in "[08/Mar/2018:00:48:34 ";
    assert '?' !in "+0800] \"OPTIONS";
    NotContainedByChar(LogPrefix + " /dig", HandleDig, 5);
  }

  /** The encoded parameters hold no space, no '#' and no control byte. */
  lemma ParamsArePlain(currentUrl: string, referUrl: string, ua: string)
    requires IsByteString(currentUrl) && IsByteString(referUrl) && IsByteString(ua)
    ensures var p := ParamsText(currentUrl, referUrl, ua);
            ' ' !in p && '#' !in p && !HasCtlByte(p)
  {
    var p := ParamsText(currentUrl, referUrl, ua);
    ParamsTextFormText(currentUrl, referUrl, ua);
    forall i | 0 <= i < |p| ensures p[i] != ' ' && p[i] != '#' && !IsCtl(p[i]) {
      assert IsFormByte(p[i]);
    }
  }

  /** `cutLogFetchData(makeLog(url, refer, ua))` yields time "1" and the three
      arguments unchanged, whatever bytes they hold. */
  lemma BeaconRoundTrip(currentUrl: string, referUrl: string, ua: string)
    requires IsByteString(currentUrl) && IsByteString(referUrl) && IsByteString(ua)
    ensures CutLogFetchData(MakeLog(currentUrl, referUrl, ua)) == DigData("1", currentUrl, referUrl, ua)
  {
    var p := ParamsText(currentUrl, referUrl, ua);
    GeneratedLineSplits(currentUrl, referUrl, ua);
    PrefixHasNoMarker();
    ParamsArePlain(currentUrl, referUrl, ua);
    var tail := HandleHttp + LogRest(ua);
    assert tail[|tail| - 1] == '"';
    CutLogFetchDataReads(LogPrefix, p, LogRest(ua));
    assert ParseBeaconQuery(p) == Some(p);
    var v := LogParams(currentUrl, referUrl, ua);
    LogParamsGet(currentUrl, referUrl, ua);
    ParamsTextIsEncode(currentUrl, referUrl, ua);
    FormRoundTrip(v, "time");
    FormRoundTrip(v, "url");
    FormRoundTrip(v, "refer");
    FormRoundTrip(v, "ua");
  }

  /** The site address holds no ".html". */
  lemma SiteHasNoHtml()
    ensures !Contains(Site, HandleHtml)
  {
    assert '.' !in Site;
    NotContainedByChar(Site, HandleHtml, 0);
  }

  /** A movie URL of the generator is classified as that movie. */
  lemma MovieUrlClassified(n: nat, t: string)
    requires n < 12924
    ensures FormatUrl(MovieUrl(n), t) == UrlNode(Movie, n, MovieUrl(n), t)
  {
    var s := Site + "/movie";
    assert 'm' !in s[1..22];
    NoOccurrenceByChar(s, HandleMovie, 1, 0, 21);
    assert !Contains(s, HandleMovie);
    SiteHasNoHtml();
    FormatUrlMovieId(Site, n, "", t);
    assert MovieUrl(n) == Site + HandleMovie + Itoa(n) + HandleHtml + "";
  }

  /** The only "/list/" of the site's list prefix is its end. */
  lemma SiteListHasNoList()
    ensures !Contains(Site + "/list", HandleList)
  {
    var s := Site + "/list";
    assert 'i' !in s[2..23];
    NoOccurrenceByChar(s, HandleList, 2, 0, 21);
  }

  /** A list URL holds no "/movie/": it has no 'v'. */
  lemma ListUrlHasNoMovie(n: nat)
    ensures !Contains(Site + HandleList + Itoa(n) + HandleHtml + "", HandleMovie)
  {
    var id := Itoa(n);
    ItoaDecimal(n);
    assert 'v' !in id by {
      forall i | 0 <= i < |id| ensures id[i] != 'v' {
        assert IsDigit(id[i]);
      }
    }
    assert 'v' !in Site + HandleList && 'v' !in HandleHtml + "";
    NotContainedByChar(Site + HandleList + id + HandleHtml + "", HandleMovie, 3);
  }

  /** A list URL of the generator is classified as that list page. */
  lemma ListUrlClassified(n: nat, t: string)
    requires 1 <= n <= 20
    ensures FormatUrl(ListUrl(n), t) == UrlNode(List, n, ListUrl(n), t)
  {
    assert ListUrl(n) == Site + HandleList + Itoa(n) + HandleHtml + "";
    ListUrlHasNoMovie(n);
    SiteListHasNoList();
    SiteHasNoHtml();
    FormatUrlListId(Site, n, "", t);
  }

  /** The home URL of the generator is the home page, id 1. */
  lemma HomeUrlClassified(t: string)
    ensures FormatUrl(Site + "/", t) == UrlNode(Home, 1, Site + "/", t)
  {
    assert 'v' !in Site + "/" && 'i' !in Site + "/";
    NotContainedByChar(Site + "/", HandleMovie, 3);
    NotContainedByChar(Site + "/", HandleList, 2);
  }

  /** The page that position `j` of the generator's URL list names. */
  function PageOf(j: nat): (PageType, int) {
    if j == 0 then (Home, 1) else if j <= 20 then (List, j) else (Movie, j - 21)
  }

  /** A decimal integer is plain ASCII. */
  lemma DecimalIsBytes(n: int)
    ensures IsByteString(Itoa(n))
  {
    var id := Itoa(n);
    ItoaDecimal(n);
    forall i | 0 <= i < |id| ensures id[i] as int < 256 {
      if id[0] == '-' || id[0] == '+' {
        if i > 0 {
          assert id[1..][i - 1] == id[i];
        }
      }
    }
  }

  /** A URL made of two ASCII parts around a decimal id is ASCII. */
  lemma PageUrlIsBytes(a: string, n: int, b: string)
    requires IsByteString(a) && IsByteString(b)
    ensures IsByteString(a + Itoa(n) + b)
  {
    DecimalIsBytes(n);
  }

  lemma SiteTextIsBytes()
    ensures IsByteString(Site + "/") && IsByteString(Site + "/list/")
    ensures IsByteString(Site + "/movie/") && IsByteString(".html")
  {
  }

  lemma SiteUrlIsBytes(j: nat)
    requires j < 12945
    ensures IsByteString(Urls(RuleResource(), 3)[j])
  {
    SiteUrlsCount();
    SiteTextIsBytes();
    if 1 <= j <= 20 {
      SiteUrlsList(j);
      PageUrlIsBytes(Site + "/list/", j, ".html");
    } else if j >= 21 {
      SiteUrlsMovie(j);
      PageUrlIsBytes(Site + "/movie/", j - 21, ".html");
    }
  }

  /** A visit the generator writes for position `j` of its URL list, with any referrer
      and user agent, reaches the counters as a record of page `PageOf(j)`, with the
      uid of the referrer and user agent. */
  lemma GeneratedVisitCounted(j: nat, referUrl: string, ua: string, digest: string -> string)
    requires j < 12945 && IsByteString(referUrl) && IsByteString(ua)
    ensures var u := Urls(RuleResource(), 3)[j];
            IsByteString(u)
            && Assemble(MakeLog(u, referUrl, ua), digest)
               == UrlData(DigData("1", u, referUrl, ua), digest(referUrl + ua),
                          UrlNode(PageOf(j).0, PageOf(j).1, u, "1"))
  {
    SiteUrlsCount();
    SiteUrlIsBytes(j);
    var u := Urls(RuleResource(), 3)[j];
    BeaconRoundTrip(u, referUrl, ua);
    if j == 0 {
      HomeUrlClassified("1");
    } else if j <= 20 {
      SiteUrlsList(j);
      ListUrlClassified(j, "1");
    } else {
      SiteUrlsMovie(j);
      MovieUrlClassified(j - 21, "1");
    }
  }
}
