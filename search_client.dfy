/**
 * `SearchClient`: the object a caller configures and then runs `search` on.
 * Its fields are updated in place by `update_urls`, `get_page` and `search`;
 * the network it talks to is the pair of fields `sent` (requests made so far)
 * and `responses` (the answers still to come).
 */
module Client {
  import opened Wrappers
  import opened Text
  import opened UrlLib
  import opened SearchUrls
  import opened LinkFilter
  import opened PageFetch
  import opened SearchLoop

  /** The user agent used when none is given. */
  const DefaultUserAgent := "Mozilla/5.0 (Windows NT 10.0; Win64; x64) AppleWebKit/537.36 (KHTML, like Gecko) Chrome/92.0.4515.131 Safari/537.36"

  /** The largest page size Google accepts. */
  const MaxNum := 100

  const ExemptionCookie := "GOOGLE_ABUSE_EXEMPTION"

  /** The cookies a new client starts with: the abuse exemption when one is given (a non-empty string), else none. */
  function InitialCookies(googleExemption: Option<string>): (c: Option<Cookies>)
    ensures c.Some? <==> googleExemption.Some? && googleExemption.value != ""
    ensures c.Some? ==> c.value == map[ExemptionCookie := googleExemption.value]
  {
    if googleExemption.Some? && googleExemption.value != "" then Some(map[ExemptionCookie := googleExemption.value]) else None
  }

  /** The extra parameters `search` uses: none when the field is unset or empty. */
  function NormalExtras(extraParams: Option<seq<(string, string)>>): seq<(string, string)> {
    match extraParams
    case None => []
    case Some(e) => e
  }

  /** Appending `&key=value` to a URL built from the first `j` extras gives the URL built from the first `j + 1`. */
  lemma AppendExtraParam(base: string, extras: seq<(string, string)>, j: int, url: string)
    requires 0 <= j < |extras| && url == base + ExtraSuffix(extras[..j])
    ensures url + "&" + extras[j].0 + "=" + extras[j].1 == base + ExtraSuffix(extras[..j + 1])
  {
    var pre, kv := extras[..j], extras[j];
    assert extras[..j + 1][..j] == pre;
    assert ExtraSuffix(extras[..j + 1]) == ExtraSuffix(pre) + ExtraParam(kv);
    Regroup(base, ExtraSuffix(pre), ExtraParam(kv), ExtraSuffix(extras[..j + 1]));
    assert url + "&" + kv.0 + "=" + kv.1 == url + ExtraParam(kv);
  }

  lemma RetryLog(log: seq<Request>, request: Request, before: seq<Request>, after: seq<Request>)
    requires before == log + [request] && before <= after
    ensures after == log + ([request] + after[|before|..])
  {
  }

  class SearchClient {
    var query: string
    var tld: string
    var langHtmlUi: string
    var langResult: string
    var tbs: string
    var safe: string
    var start: int
    var num: int
    var country: string
    var extraParams: Option<seq<(string, string)>>
    var maxResults: int
    var userAgent: string
    var managesHttp429s: bool
    var verboseOutput: bool
    var cookies: Option<Cookies>
    var urlHome: string
    var urlSearch: string
    var urlNextPage: string
    var urlSearchNum: string
    var urlNextPageNum: string
    var searchResultList: seq<Item>
    var sent: seq<Request>
    var responses: seq<Response>

    function Fields(): UrlFields
      reads this`tld, this`langHtmlUi, this`langResult, this`query, this`tbs, this`safe, this`start, this`num, this`country
    {
      UrlFields(tld, langHtmlUi, langResult, query, tbs, safe, start, num, country)
    }

    function CurrentUrls(): Urls
      reads this`urlHome, this`urlSearch, this`urlNextPage, this`urlSearchNum, this`urlNextPageNum
    {
      Urls(urlHome, urlSearch, urlNextPage, urlSearchNum, urlNextPageNum)
    }

    /** The configuration `search` runs with. */
    function SearchConfig(): Config
      reads this`tld, this`langHtmlUi, this`langResult, this`query, this`tbs, this`safe, this`start, this`num, this`country
      reads this`extraParams, this`maxResults, this`managesHttp429s, this`verboseOutput
    {
      Config(Fields(), NormalExtras(extraParams), maxResults, managesHttp429s, verboseOutput)
    }

    /** The stored URLs are those of the current fields, and the page size is capped. */
    predicate Valid()
      reads this`tld, this`langHtmlUi, this`langResult, this`query, this`tbs, this`safe, this`start, this`num, this`country
      reads this`urlHome, this`urlSearch, this`urlNextPage, this`urlSearchNum, this`urlNextPageNum
    {
      CurrentUrls() == BuildUrls(Fields()) && num <= MaxNum
    }

    /** `__init__`: the query is stored `quote_plus`-encoded, the result language lower-cased, `num` capped at 100, the cookies seeded from the exemption, and the URLs built. */
    constructor (
      query: string,
      tld: string := "com",
      langHtmlUi: string := "en",
      langResult: string := "lang_en",
      tbs: string := "0",
      safe: string := "off",
      start: int := 0,
      num: int := 100,
      country: string := "",
      extraParams: Option<seq<(string, string)>> := None,
      maxResults: int := 100,
      userAgent: Option<string> := None,
      managesHttp429s: bool := true,
      verboseOutput: bool := false,
      googleExemption: Option<string> := None,
      network: seq<Response> := [])
      ensures Valid()
      ensures Fields() == UrlFields(tld, langHtmlUi, AsciiLower(langResult), QuotePlus(query), tbs, safe, start,
        if num > MaxNum then MaxNum else num, country)
      ensures this.extraParams == extraParams && this.maxResults == maxResults
      ensures this.managesHttp429s == managesHttp429s && this.verboseOutput == verboseOutput
      ensures this.userAgent == if userAgent.Some? && userAgent.value != "" then userAgent.value else DefaultUserAgent
      ensures cookies == InitialCookies(googleExemption)
      ensures searchResultList == [] && sent == [] && responses == network
    {
      this.query := QuotePlus(query);
      this.tld := tld;
      this.langHtmlUi := langHtmlUi;
      this.langResult := AsciiLower(langResult);
      this.tbs := tbs;
      this.safe := safe;
      this.start := start;
      this.num := if num > MaxNum then MaxNum else num;
      this.country := country;
      this.extraParams := extraParams;
      this.maxResults := maxResults;
      this.userAgent := if userAgent.Some? && userAgent.value != "" then userAgent.value else DefaultUserAgent;
      this.managesHttp429s := managesHttp429s;
      this.verboseOutput := verboseOutput;
      if googleExemption.Some? && googleExemption.value != "" {
        this.cookies := Some(map[ExemptionCookie := googleExemption.value]);
      } else {
        this.cookies := None;
      }
      searchResultList := [];
      sent := [];
      responses := network;
      // the URLs `update_urls` builds from the fields just set
      var urls := BuildUrls(UrlFields(tld, langHtmlUi, AsciiLower(langResult), QuotePlus(query), tbs, safe, start,
        if num > MaxNum then MaxNum else num, country));
      urlHome, urlSearch, urlNextPage, urlSearchNum, urlNextPageNum := urls.home, urls.search, urls.nextPage, urls.searchNum, urls.nextPageNum;
    }

    /** `update_urls`: rebuilds the home URL and the four search templates from the current fields. */
    method UpdateUrls()
      modifies this`urlHome, this`urlSearch, this`urlNextPage, this`urlSearchNum, this`urlNextPageNum
      ensures CurrentUrls() == BuildUrls(Fields())
    {
      var f := Fields();
      var head, tail := TemplateHead(f), TemplateTail(f);
      var startText, numText := IntToString(f.start), IntToString(f.num);
      var home := "https://www.google." + f.tld + "/";
      var search := head + "&btnG=Google+Search" + tail;
      var nextPage := head + "&start=" + startText + tail;
      var searchNum := head + "&num=" + numText + "&btnG=Google+Search" + tail;
      var nextPageNum := head + "&start=" + startText + "&num=" + numText + tail;
      assert BuildUrls(f) == Urls(home, search, nextPage, searchNum, nextPageNum);
      urlHome, urlSearch, urlNextPage, urlSearchNum, urlNextPageNum := home, search, nextPage, searchNum, nextPageNum;
      assert Fields() == f;
    }

    /** `get_page`: one request, the cookies of its response (a pending consent accepted), and a retry after a 429 when 429s are managed. */
    method GetPage(url: string) returns (page: Page)
      modifies this`cookies, this`sent, this`responses
      ensures var f := Fetch(url, managesHttp429s, old(cookies), old(responses));
        page == f.page && cookies == f.cookies && sent == old(sent) + f.sent && responses == f.rest
      decreases |responses|
    {
      if responses == [] {
        page := NoResponse;
        return;
      }
      var response := responses[0];
      var request := Request(url, cookies);
      sent := sent + [request];
      responses := responses[1..];
      KeepCookies(response.cookies);
      if response.status == 200 {
        page := Html(response.anchors);
      } else if response.status == 429 {
        if !managesHttp429s {
          page := Http429Detected;
          return;
        }
        ghost var before := sent;
        page := GetPage(url);
        RetryLog(old(sent), request, before, sent);
      } else {
        page := Html([]);
      }
    }

    /** The cookies kept from a response: `response.cookies`, with a pending consent replaced by an accepted one. */
    method KeepCookies(jar: Cookies)
      modifies this`cookies
      ensures cookies == Some(CookiesAfter(jar))
    {
      cookies := Some(jar);
      if ConsentName in jar && StartsWith(jar[ConsentName], PendingPrefix) {
        var consent := jar[ConsentName];
        assert consent[|PendingPrefix| - 1] == '+';
        var number := Split(consent, '+')[1];
        cookies := Some(map[ConsentName := ConsentPrefix + number]);
      }
    }

    /** The URL of the next page request: the template `start` and `num` select, then every extra parameter as `&key=value`. */
    method PageRequest(extras: seq<(string, string)>) returns (url: string)
      requires Valid()
      ensures url == PageUrl(Fields(), extras)
    {
      if start != 0 {
        if num == 10 {
          url := urlNextPage;
        } else {
          url := urlNextPageNum;
        }
      } else {
        if num == 10 {
          url := urlSearch;
        } else {
          url := urlSearchNum;
        }
      }
      ghost var base := url;
      assert extras[..0] == [];
      var j := 0;
      while j < |extras|
        invariant 0 <= j <= |extras|
        invariant url == base + ExtraSuffix(extras[..j])
      {
        AppendExtraParam(base, extras, j, url);
        url := url + "&" + extras[j].0 + "=" + extras[j].1;
        j := j + 1;
      }
      assert extras[..j] == extras;
    }

    /** One pass of the anchor loop: read the `href`, filter it, and append the link when it is not listed yet. */
    method StepAnchor(a: Anchor, total: int, found: int, linkBound: bool) returns (step: Step)
      modifies this`searchResultList
      ensures step == ProcessAnchor(a, Scan(old(searchResultList), total, found, linkBound), maxResults, verboseOutput)
      ensures searchResultList == step.scan.results
    {
      var s := Scan(searchResultList, total, found, linkBound);
      if a.href.None? {
        if !linkBound {
          return Crash(s);
        }
        return Continue(s);
      }
      var link := FilterSearchResultUrl(a.href.value);
      AnchorWithHref(a, s, maxResults, verboseOutput, link);
      if link.None? || link.value == "" {
        return Continue(s.(linkBound := true));
      }
      var next := AddLink(a, link.value, total, found, linkBound);
      if maxResults <= |searchResultList| {
        return Stop(next);
      }
      return Continue(next);
    }

    /** `if link not in search_result_list`: count the link and append its entry. */
    method AddLink(a: Anchor, link: string, total: int, found: int, linkBound: bool) returns (next: Scan)
      modifies this`searchResultList
      ensures next == Record1(a, Scan(old(searchResultList), total, found, linkBound), link, verboseOutput)
      ensures searchResultList == next.results
    {
      if Url(link) in searchResultList {
        return Scan(searchResultList, total, found, true);
      }
      if verboseOutput {
        var description := "";
        if a.desc1.Some? {
          description := a.desc1.value;
          if description == "" {
            description := if a.desc2.Some? then a.desc2.value else "";
          }
        }
        searchResultList := searchResultList + [Record(total + 1, Strip(a.text), Strip(description), link)];
      } else {
        searchResultList := searchResultList + [Url(link)];
      }
      return Scan(searchResultList, total + 1, found + 1, true);
    }

    /** The anchor loop of one page, appending to the list in place. */
    method ScanAnchors(anchors: seq<Anchor>, total0: int, linkBound0: bool) returns (step: Step)
      modifies this`searchResultList
      ensures step == ProcessAnchors(anchors, Scan(old(searchResultList), total0, 0, linkBound0), maxResults, verboseOutput)
      ensures searchResultList == step.scan.results
    {
      var scan := Scan(searchResultList, total0, 0, linkBound0);
      ghost var goal := ProcessAnchors(anchors, scan, maxResults, verboseOutput);
      var k := 0;
      while k < |anchors|
        invariant 0 <= k <= |anchors|
        invariant searchResultList == scan.results
        invariant ProcessAnchors(anchors[k..], scan, maxResults, verboseOutput) == goal
      {
        assert anchors[k..][0] == anchors[k] && anchors[k..][1..] == anchors[k + 1..];
        step := StepAnchor(anchors[k], scan.total, scan.found, scan.linkBound);
        if !step.Continue? {
          return;
        }
        scan := step.scan;
        k := k + 1;
      }
      return Continue(scan);
    }

    /** The state `search` has reached between two pages, with the two locals of its loop. */
    function SessionOf(total: int, linkBound: bool): Session
      reads this`start, this`searchResultList, this`cookies, this`sent, this`responses
    {
      Session(start, searchResultList, total, linkBound, cookies, sent, responses)
    }

    /** The check of `search` that no extra parameter overrides a built-in one, in the order of the built-in list. */
    method FindCollision(extras: seq<(string, string)>) returns (clash: Option<string>)
      ensures clash == FirstCollision(extras)
    {
      var i := 0;
      while i < |BuiltinParams|
        invariant 0 <= i <= |BuiltinParams|
        invariant forall j | 0 <= j < i :: BuiltinParams[j] !in KeysOf(extras)
      {
        if BuiltinParams[i] in KeysOf(extras) {
          assert CollisionIndex(BuiltinParams, extras) == i;
          return Some(BuiltinParams[i]);
        }
        i := i + 1;
      }
      return None;
    }

    /** One pass of the `while` loop of `search`: request the page at `start`, scan its anchors, and either end the search or move `start` on by `num`. */
    method SearchPage(ghost cfg: Config, extras: seq<(string, string)>, total: int, linkBound: bool)
      returns (ended: Option<Status>, total': int, linkBound': bool)
      requires Valid() && Fields() == cfg.fields.(start := start) && extras == cfg.extras
      requires maxResults == cfg.budget && managesHttp429s == cfg.manages && verboseOutput == cfg.verbose
      modifies this`cookies, this`sent, this`responses, this`searchResultList, this`start
      modifies this`urlHome, this`urlSearch, this`urlNextPage, this`urlSearchNum, this`urlNextPageNum
      ensures Valid() && Fields() == cfg.fields.(start := start)
      ensures var s := old(SessionOf(total, linkBound)); var r := PageAfterFetch(cfg, s, FetchPage(cfg, s));
        match ended
        case Some(status) => r == Done(Outcome(status, SessionOf(total', linkBound')))
        case None => r == Next(SessionOf(total', linkBound'))
    {
      ghost var s := SessionOf(total, linkBound);
      ghost var f := FetchPage(cfg, s);
      var url := PageRequest(extras);
      assert url == PageRequestUrl(cfg, s.start);
      var page := GetPage(url);
      ended, total', linkBound' := ScanPage(cfg, s, f, page, total, linkBound);
    }

    /** The rest of the loop body once `get_page` has answered: the 429 sentinel, the anchor loop, the exhaustion test, and the step to the next page. */
    method ScanPage(ghost cfg: Config, ghost s: Session, ghost f: Fetched, page: Page, total: int, linkBound: bool)
      returns (ended: Option<Status>, total': int, linkBound': bool)
      requires Valid() && Fields() == cfg.fields.(start := s.start)
      requires maxResults == cfg.budget && verboseOutput == cfg.verbose
      requires page == f.page && total == s.total && linkBound == s.linkBound
      requires SessionOf(total, linkBound) == s.(cookies := f.cookies, sent := s.sent + f.sent, responses := f.rest)
      modifies this`searchResultList, this`start
      modifies this`urlHome, this`urlSearch, this`urlNextPage, this`urlSearchNum, this`urlNextPageNum
      ensures Valid() && Fields() == cfg.fields.(start := start)
      ensures var r := PageAfterFetch(cfg, s, f);
        match ended
        case Some(status) => r == Done(Outcome(status, SessionOf(total', linkBound')))
        case None => r == Next(SessionOf(total', linkBound'))
    {
      total', linkBound' := total, linkBound;
      if page.NoResponse? {
        return Some(OutOfResponses), total', linkBound';
      }
      if page.Http429Detected? {
        searchResultList := searchResultList + [Http429Sentinel];
        return Some(Returned), total', linkBound';
      }
      ended, total', linkBound' := ScanHtml(cfg, s, f, page.anchors, total, linkBound);
    }

    /** The anchor loop of a page `get_page` returned, the exhaustion test, and the step to the next page. */
    method ScanHtml(ghost cfg: Config, ghost s: Session, ghost f: Fetched, anchors: seq<Anchor>, total: int, linkBound: bool)
      returns (ended: Option<Status>, total': int, linkBound': bool)
      requires Valid() && Fields() == cfg.fields.(start := s.start)
      requires maxResults == cfg.budget && verboseOutput == cfg.verbose
      requires f.page == Html(anchors) && total == s.total && linkBound == s.linkBound
      requires SessionOf(total, linkBound) == s.(cookies := f.cookies, sent := s.sent + f.sent, responses := f.rest)
      modifies this`searchResultList, this`start
      modifies this`urlHome, this`urlSearch, this`urlNextPage, this`urlSearchNum, this`urlNextPageNum
      ensures Valid() && Fields() == cfg.fields.(start := start)
      ensures var r := PageAfterFetch(cfg, s, f);
        match ended
        case Some(status) => r == Done(Outcome(status, SessionOf(total', linkBound')))
        case None => r == Next(SessionOf(total', linkBound'))
    {
      var step := ScanAnchors(anchors, total, linkBound);
      total', linkBound' := step.scan.total, step.scan.linkBound;
      if step.Crash? {
        return Some(NameErrorRaised), total', linkBound';
      }
      if step.Stop? || step.scan.found == 0 {
        return Some(Returned), total', linkBound';
      }
      NextStart();
      return None, total', linkBound';
    }

    /** `self.start += self.num` followed by `self.update_urls()`. */
    method NextStart()
      requires Valid()
      modifies this`start, this`urlHome, this`urlSearch, this`urlNextPage, this`urlSearchNum, this`urlNextPageNum
      ensures Valid() && Fields() == old(Fields()).(start := old(start) + num)
    {
      ghost var f := Fields();
      start := start + num;
      assert Fields() == f.(start := f.start + f.num);
      UpdateUrls();
    }

    /**
     * `search`: the collision check, the home page request, then pages until
     * the budget is reached, a page brings nothing new, or a 429 is reported.
     */
    method Search() returns (status: Status)
      requires Valid()
      modifies this`extraParams, this`cookies, this`sent, this`responses, this`searchResultList, this`start
      modifies this`urlHome, this`urlSearch, this`urlNextPage, this`urlSearchNum, this`urlNextPageNum
      ensures Valid() && Fields() == old(Fields()).(start := start)
      ensures extraParams == Some(NormalExtras(old(extraParams)))
      ensures var o := RunSearch(old(SearchConfig()), old(start), old(cookies), old(sent), old(responses));
        status == o.status && SessionOf(0, false).(total := o.session.total, linkBound := o.session.linkBound) == o.session
    {
      ghost var cfg := Config(Fields(), NormalExtras(extraParams), maxResults, managesHttp429s, verboseOutput);
      assert cfg == SearchConfig();
      searchResultList := [];
      if extraParams.None? || extraParams.value == [] {
        extraParams := Some([]);
      }
      var extras := extraParams.value;
      assert extras == cfg.extras;
      status := CheckedSearch(cfg, extras);
    }

    /** The collision check of `search` and, when it passes, the rest of the search. */
    method CheckedSearch(ghost cfg: Config, extras: seq<(string, string)>) returns (status: Status)
      requires Valid() && Fields() == cfg.fields && extras == cfg.extras && searchResultList == []
      requires maxResults == cfg.budget && managesHttp429s == cfg.manages && verboseOutput == cfg.verbose
      modifies this`cookies, this`sent, this`responses, this`searchResultList, this`start
      modifies this`urlHome, this`urlSearch, this`urlNextPage, this`urlSearchNum, this`urlNextPageNum
      ensures Valid() && Fields() == cfg.fields.(start := start)
      ensures var o := RunSearch(cfg, old(start), old(cookies), old(sent), old(responses));
        status == o.status && SessionOf(0, false).(total := o.session.total, linkBound := o.session.linkBound) == o.session
    {
      var clash := FindCollision(extras);
      if clash.Some? {
        CollisionOutcome(cfg, start, cookies, sent, responses, clash.value);
        return ValueErrorRaised(clash.value);
      }
      status := SearchFromHome(cfg, extras);
    }

    /** The part of `search` after the collision check: the home page request, then the `while` loop. */
    method SearchFromHome(ghost cfg: Config, extras: seq<(string, string)>) returns (status: Status)
      requires Valid() && Fields() == cfg.fields && extras == cfg.extras && FirstCollision(extras).None?
      requires searchResultList == []
      requires maxResults == cfg.budget && managesHttp429s == cfg.manages && verboseOutput == cfg.verbose
      modifies this`cookies, this`sent, this`responses, this`searchResultList, this`start
      modifies this`urlHome, this`urlSearch, this`urlNextPage, this`urlSearchNum, this`urlNextPageNum
      ensures Valid() && Fields() == cfg.fields.(start := start)
      ensures var o := RunSearch(cfg, old(start), old(cookies), old(sent), old(responses));
        status == o.status && SessionOf(0, false).(total := o.session.total, linkBound := o.session.linkBound) == o.session
    {
      ghost var home := Fetch(BuildUrls(cfg.fields).home, cfg.manages, cookies, responses);
      HomeThenPages(cfg, start, cookies, sent, responses, home);
      ghost var s := Session(start, [], 0, false, home.cookies, sent + home.sent, home.rest);
      var page := GetPage(urlHome);
      assert page == home.page;
      assert SessionOf(0, false) == s;
      if page.NoResponse? {
        return OutOfResponses;
      }
      var total, linkBound;
      status, total, linkBound := SearchLoop(cfg, extras);
    }

    /** The `while` loop of `search`, from an empty list and an unbound `link`. */
    method SearchLoop(ghost cfg: Config, extras: seq<(string, string)>) returns (status: Status, total: int, linkBound: bool)
      requires Valid() && Fields() == cfg.fields.(start := start) && extras == cfg.extras
      requires maxResults == cfg.budget && managesHttp429s == cfg.manages && verboseOutput == cfg.verbose
      modifies this`cookies, this`sent, this`responses, this`searchResultList, this`start
      modifies this`urlHome, this`urlSearch, this`urlNextPage, this`urlSearchNum, this`urlNextPageNum
      ensures Valid() && Fields() == cfg.fields.(start := start)
      ensures SearchPages(cfg, old(SessionOf(0, false))) == Outcome(status, SessionOf(total, linkBound))
    {
      total, linkBound := 0, false;
      ghost var goal := SearchPages(cfg, SessionOf(total, linkBound));
      while total <= maxResults
        invariant Valid() && Fields() == cfg.fields.(start := start)
        invariant SearchPages(cfg, SessionOf(total, linkBound)) == goal
        decreases |responses|
      {
        var ended;
        ended, total, linkBound := SearchPage(cfg, extras, total, linkBound);
        if ended.Some? {
          return ended.value, total, linkBound;
        }
      }
      return ReturnedNone, total, linkBound;
    }
  }

  /** A clashing extra parameter ends `search` before any request, with an empty list. */
  lemma CollisionOutcome(cfg: Config, start: int, cookies: Option<Cookies>, log: seq<Request>, responses: seq<Response>, p: string)
    requires FirstCollision(cfg.extras) == Some(p)
    ensures RunSearch(cfg, start, cookies, log, responses) == Outcome(ValueErrorRaised(p), Session(start, [], 0, false, cookies, log, responses))
  {
  }

  /** Past the collision check, `search` fetches the home page and, unless the network is silent, runs the page loop. */
  lemma HomeThenPages(cfg: Config, start: int, cookies: Option<Cookies>, log: seq<Request>, responses: seq<Response>, home: Fetched)
    requires FirstCollision(cfg.extras).None?
    requires home == Fetch(BuildUrls(cfg.fields).home, cfg.manages, cookies, responses)
    ensures var s := Session(start, [], 0, false, home.cookies, log + home.sent, home.rest);
      RunSearch(cfg, start, cookies, log, responses) == if home.page.NoResponse? then Outcome(OutOfResponses, s) else SearchPages(cfg, s)
  {
  }
}
