/**
 * What `search` promises about the list it returns, proved of the page loop:
 * every entry is a filtered result URL, bare URLs are never repeated, ranks
 * count from one, the budget bounds the list, the 429 marker can only come
 * last, and the page requests walk `start` forward by `num`.
 */
module SearchProperties {
  import opened Wrappers
  import opened Text
  import opened UrlLib
  import opened SearchUrls
  import opened LinkFilter
  import opened PageFetch
  import opened SearchLoop

  /** A URL the filter keeps as it is. */
  predicate Accepted(u: string) {
    FilterSearchResultUrl(u) == Some(u)
  }

  /** No leading or trailing white space, as `str.strip()` leaves a string. */
  predicate Trimmed(t: string) {
    t == [] || (!IsSpace(t[0]) && !IsSpace(t[|t| - 1]))
  }

  /** Entry `i` of the list: a kept URL, or in verbose mode a record of rank `i + 1` with stripped texts. */
  predicate IsResultItem(item: Item, i: int, verbose: bool) {
    if verbose then
      item.Record? && item.rank == i + 1 && Trimmed(item.title) && Trimmed(item.description) && Accepted(item.url)
    else item.Url? && Accepted(item.url)
  }

  predicate WellFormedResults(r: seq<Item>, verbose: bool) {
    && (forall i | 0 <= i < |r| :: IsResultItem(r[i], i, verbose))
    && (!verbose ==> forall i, j | 0 <= i < j < |r| :: r[i] != r[j])
  }

  /** Room for one more entry below the budget (or an empty list). */
  predicate Room(r: seq<Item>, budget: int) {
    |r| < budget || r == []
  }

  predicate ScanInv(s: Scan, budget: int, verbose: bool) {
    WellFormedResults(s.results, verbose) && s.total == |s.results| && Room(s.results, budget)
  }

  predicate SessionInv(cfg: Config, s: Session) {
    WellFormedResults(s.results, cfg.verbose) && s.total == |s.results| && Room(s.results, cfg.budget)
  }

  /** A relative link without a colon has neither scheme nor host, so it is never a result. */
  lemma NoHostWithoutColon(u: string)
    requires ':' !in u && !StartsWith(u, "//")
    ensures AcceptTarget(u) == None
  {
    assert Find(u, ':') < 0;
    assert SplitScheme(u, "http") == ("http", u);
    assert SplitNetloc(u) == ("", u);
  }

  /** The 429 marker is not a URL the filter keeps, so it never equals a result entry. */
  lemma SentinelRejected()
    ensures FilterSearchResultUrl(Http429Sentinel.url) == None
  {
    var u := Http429Sentinel.url;
    assert u[0] == 'H';
    assert !IsRedirector(u);
    NoHostWithoutColon(u);
  }

  lemma SentinelNotResult(r: seq<Item>, verbose: bool)
    requires WellFormedResults(r, verbose)
    ensures Http429Sentinel !in r
  {
    if Http429Sentinel in r {
      var i :| 0 <= i < |r| && r[i] == Http429Sentinel;
      assert IsResultItem(r[i], i, verbose);
      SentinelRejected();
    }
  }

  /** Appending a new link keeps the list well formed. */
  lemma AppendKeeps(a: Anchor, s: Scan, href: string, link: string, budget: int, verbose: bool)
    requires ScanInv(s, budget, verbose)
    requires FilterSearchResultUrl(href) == Some(link)
    requires Url(link) !in s.results
    ensures WellFormedResults(s.results + [NewItem(a, s, link, verbose)], verbose)
  {
    FilterIdempotent(href);
    var r := s.results + [NewItem(a, s, link, verbose)];
    forall i | 0 <= i < |r| ensures IsResultItem(r[i], i, verbose) {
      if i < |s.results| {
        assert r[i] == s.results[i];
      }
    }
  }

  /** A kept URL is never empty: the empty link has no host. */
  lemma AcceptedNonEmpty(href: string, link: string)
    requires FilterSearchResultUrl(href) == Some(link)
    ensures link != ""
  {
    FilterIdempotent(href);
    if link == "" {
      assert !IsRedirector(link);
      NoHostWithoutColon(link);
    }
  }

  /** A kept link not listed yet is appended as a new entry ranked after the links counted so far, and both counters count it; the budget then decides whether `search` returns. */
  lemma NewLinkAppended(a: Anchor, s: Scan, budget: int, verbose: bool, link: string)
    requires a.href.Some? && FilterSearchResultUrl(a.href.value) == Some(link)
    requires Url(link) !in s.results
    ensures var next := Scan(s.results + [NewItem(a, s, link, verbose)], s.total + 1, s.found + 1, true);
      ProcessAnchor(a, s, budget, verbose) == if budget <= |s.results| + 1 then Stop(next) else Continue(next)
  {
    AcceptedNonEmpty(a.href.value, link);
  }

  /** A kept link already listed as a bare URL leaves the list and the counters as they are. */
  lemma ListedLinkKept(a: Anchor, s: Scan, budget: int, verbose: bool, link: string)
    requires a.href.Some? && FilterSearchResultUrl(a.href.value) == Some(link)
    requires Url(link) in s.results
    ensures var next := s.(linkBound := true);
      ProcessAnchor(a, s, budget, verbose) == if budget <= |s.results| then Stop(next) else Continue(next)
  {
    AcceptedNonEmpty(a.href.value, link);
  }

  /** Some entry of the list carries this URL. */
  predicate Listed(results: seq<Item>, link: string) {
    exists j | 0 <= j < |results| :: results[j].url == link
  }

  /** The anchor loop only ever appends to the list. */
  lemma {:induction false} AnchorsExtendList(anchors: seq<Anchor>, s: Scan, budget: int, verbose: bool)
    ensures s.results <= ProcessAnchors(anchors, s, budget, verbose).scan.results
    decreases |anchors|
  {
    if anchors != [] {
      var step := ProcessAnchor(anchors[0], s, budget, verbose);
      if step.Continue? {
        AnchorsExtendList(anchors[1..], step.scan, budget, verbose);
      }
    }
  }

  /** A page whose anchor loop runs to its end has listed the kept link of every one of its anchors. */
  lemma {:induction false} PageListsItsLinks(anchors: seq<Anchor>, s: Scan, budget: int, verbose: bool)
    ensures var st := ProcessAnchors(anchors, s, budget, verbose);
      st.Continue? ==>
        forall i | 0 <= i < |anchors| && anchors[i].href.Some? && FilterSearchResultUrl(anchors[i].href.value).Some? ::
          Listed(st.scan.results, FilterSearchResultUrl(anchors[i].href.value).value)
    decreases |anchors|
  {
    var st := ProcessAnchors(anchors, s, budget, verbose);
    if anchors != [] && st.Continue? {
      var step := ProcessAnchor(anchors[0], s, budget, verbose);
      assert step.Continue?;
      var rest := anchors[1..];
      assert st == ProcessAnchors(rest, step.scan, budget, verbose);
      PageListsItsLinks(rest, step.scan, budget, verbose);
      AnchorsExtendList(rest, step.scan, budget, verbose);
      forall i | 0 <= i < |anchors| && anchors[i].href.Some? && FilterSearchResultUrl(anchors[i].href.value).Some?
        ensures Listed(st.scan.results, FilterSearchResultUrl(anchors[i].href.value).value)
      {
        var link := FilterSearchResultUrl(anchors[i].href.value).value;
        if i == 0 {
          AcceptedNonEmpty(anchors[0].href.value, link);
          var r := step.scan.results;
          if Url(link) in s.results {
            var j :| 0 <= j < |s.results| && s.results[j] == Url(link);
            assert r[j].url == link;
          } else {
            assert r[|r| - 1].url == link;
          }
          assert Listed(r, link);
          var j :| 0 <= j < |r| && r[j].url == link;
          assert st.scan.results[j] == r[j];
        } else {
          assert anchors[i] == rest[i - 1];
        }
      }
    }
  }

  /** One anchor keeps the loop's invariant, appends at most one entry, and counts exactly what it appends. */
  lemma ProcessAnchorKeeps(a: Anchor, s: Scan, budget: int, verbose: bool)
    requires ScanInv(s, budget, verbose)
    ensures var st := ProcessAnchor(a, s, budget, verbose);
      && WellFormedResults(st.scan.results, verbose)
      && st.scan.total == |st.scan.results|
      && s.results <= st.scan.results && |st.scan.results| <= |s.results| + 1
      && st.scan.found - s.found == |st.scan.results| - |s.results|
      && (!st.Stop? ==> Room(st.scan.results, budget))
      && (st.Stop? ==> |st.scan.results| <= budget || |st.scan.results| <= 1)
  {
    match a.href
    case None =>
    case Some(href) =>
      match FilterSearchResultUrl(href)
      case None =>
      case Some(link) =>
        if link != "" && Url(link) !in s.results {
          AppendKeeps(a, s, href, link, budget, verbose);
        }
  }

  /** The anchor loop of a page keeps the same facts. */
  lemma {:induction false} ProcessAnchorsKeeps(anchors: seq<Anchor>, s: Scan, budget: int, verbose: bool)
    requires ScanInv(s, budget, verbose)
    ensures var st := ProcessAnchors(anchors, s, budget, verbose);
      && WellFormedResults(st.scan.results, verbose)
      && st.scan.total == |st.scan.results|
      && s.results <= st.scan.results
      && st.scan.found - s.found == |st.scan.results| - |s.results|
      && (!st.Stop? ==> Room(st.scan.results, budget))
      && (st.Stop? ==> |st.scan.results| <= budget || |st.scan.results| <= 1)
    decreases |anchors|
  {
    if anchors != [] {
      ProcessAnchorKeeps(anchors[0], s, budget, verbose);
      match ProcessAnchor(anchors[0], s, budget, verbose)
      case Continue(next) =>
        ProcessAnchorsKeeps(anchors[1..], next, budget, verbose);
      case Stop(_) =>
      case Crash(_) =>
    }
  }

  /** The list a search ends with: its entries, apart from a last 429 marker, are well formed and the budget bounds it. */
  predicate FinalResults(r: seq<Item>, cfg: Config) {
    && (WellFormedResults(r, cfg.verbose)
        || (r != [] && r[|r| - 1] == Http429Sentinel && !cfg.manages && WellFormedResults(r[..|r| - 1], cfg.verbose)))
    && (|r| <= cfg.budget || |r| <= 1)
  }

  /**
   * One page keeps the invariant: a page that ends the search leaves a final
   * list, a page that moves on has appended at least one entry and advances
   * `start` by `num`.
   */
  lemma PageKeeps(cfg: Config, s: Session, f: Fetched)
    requires SessionInv(cfg, s)
    requires f.page.Http429Detected? ==> !cfg.manages
    ensures match PageAfterFetch(cfg, s, f)
      case Done(o) => s.results <= o.session.results && FinalResults(o.session.results, cfg)
      case Next(s2) =>
        && SessionInv(cfg, s2) && s.results < s2.results
        && s2.start == s.start + cfg.fields.num && s2.sent == s.sent + f.sent
  {
    match f.page
    case NoResponse =>
    case Http429Detected =>
      var r := s.results + [Http429Sentinel];
      assert r[..|r| - 1] == s.results;
    case Html(anchors) =>
      var s1 := s.(cookies := f.cookies, sent := s.sent + f.sent, responses := f.rest);
      var scan := Scan(s1.results, s1.total, 0, s1.linkBound);
      ProcessAnchorsKeeps(anchors, scan, cfg.budget, cfg.verbose);
      AnchorsEndKeeps(cfg, s1, scan, ProcessAnchors(anchors, scan, cfg.budget, cfg.verbose));
  }

  lemma AnchorsEndKeeps(cfg: Config, s1: Session, scan: Scan, step: Step)
    requires SessionInv(cfg, s1) && scan == Scan(s1.results, s1.total, 0, s1.linkBound)
    requires && WellFormedResults(step.scan.results, cfg.verbose)
      && step.scan.total == |step.scan.results|
      && s1.results <= step.scan.results
      && step.scan.found - scan.found == |step.scan.results| - |s1.results|
      && (!step.Stop? ==> Room(step.scan.results, cfg.budget))
      && (step.Stop? ==> |step.scan.results| <= cfg.budget || |step.scan.results| <= 1)
    ensures var s2 := AfterAnchors(s1, step);
      && s1.results <= s2.results && FinalResults(s2.results, cfg)
      && (step.Continue? && step.scan.found != 0 ==> SessionInv(cfg, s2) && s1.results < s2.results)
  {
  }

  /** The page loop only appends to the list, and ends with a list that is final in the above sense. */
  lemma {:induction false} SearchPagesShape(cfg: Config, s: Session)
    requires SessionInv(cfg, s)
    ensures var r := SearchPages(cfg, s).session.results;
      s.results <= r && FinalResults(r, cfg)
    decreases |s.responses|
  {
    if s.total <= cfg.budget {
      var f := FetchPage(cfg, s);
      PageKeeps(cfg, s, f);
      match PageAfterFetch(cfg, s, f)
      case Done(o) =>
      case Next(s2) =>
        SearchPagesShape(cfg, s2);
    }
  }

  /** Whatever way the search ends, the list it leaves is final. */
  lemma RunSearchFinal(cfg: Config, start: int, cookies: Option<Cookies>, log: seq<Request>, responses: seq<Response>)
    ensures FinalResults(RunSearch(cfg, start, cookies, log, responses).session.results, cfg)
  {
    if FirstCollision(cfg.extras).None? {
      var home := Fetch(BuildUrls(cfg.fields).home, cfg.manages, cookies, responses);
      var s := Session(start, [], 0, false, home.cookies, log + home.sent, home.rest);
      if !home.page.NoResponse? {
        SearchPagesShape(cfg, s);
      }
    }
  }

  /** A final list spelled out entry by entry. */
  lemma FinalListFacts(r: seq<Item>, cfg: Config)
    requires FinalResults(r, cfg)
    ensures && (|r| <= cfg.budget || |r| <= 1)
      && (forall i | 0 <= i < |r| && r[i] != Http429Sentinel :: IsResultItem(r[i], i, cfg.verbose))
      && (forall i | 0 <= i < |r| && r[i] == Http429Sentinel :: i == |r| - 1 && !cfg.manages)
      && (!cfg.verbose ==> forall i, j | 0 <= i < j < |r| :: r[i] != r[j])
  {
    if !WellFormedResults(r, cfg.verbose) {
      var body := r[..|r| - 1];
      assert r == body + [Http429Sentinel];
      SentinelNotResult(body, cfg.verbose);
      SentinelRejected();
      forall i | 0 <= i < |r| - 1 ensures IsResultItem(r[i], i, cfg.verbose) {
        assert r[i] == body[i];
      }
      if !cfg.verbose {
        forall i, j | 0 <= i < j < |r| ensures r[i] != r[j] {
          if j < |r| - 1 {
            assert r[i] == body[i] && r[j] == body[j];
          } else {
            assert IsResultItem(body[i], i, false);
          }
        }
      }
    } else {
      SentinelNotResult(r, cfg.verbose);
    }
  }

  /**
   * The list `search` returns (or leaves behind when it raises): bounded by the
   * budget (one entry when the budget is below one), every entry but a last
   * 429 marker a URL the filter keeps (in verbose mode a record ranked by its
   * position), the marker only when 429s are not managed, and no bare URL twice.
   */
  lemma SearchResults(cfg: Config, start: int, cookies: Option<Cookies>, log: seq<Request>, responses: seq<Response>)
    ensures var r := RunSearch(cfg, start, cookies, log, responses).session.results;
      && (|r| <= cfg.budget || |r| <= 1)
      && (forall i | 0 <= i < |r| && r[i] != Http429Sentinel :: IsResultItem(r[i], i, cfg.verbose))
      && (forall i | 0 <= i < |r| && r[i] == Http429Sentinel :: i == |r| - 1 && !cfg.manages)
      && (!cfg.verbose ==> forall i, j | 0 <= i < j < |r| :: r[i] != r[j])
  {
    RunSearchFinal(cfg, start, cookies, log, responses);
    FinalListFacts(RunSearch(cfg, start, cookies, log, responses).session.results, cfg);
  }

  /** Once the loop is entered it never falls out of its condition: after a page that moved on the list is still below the budget. */
  lemma {:induction false} LoopNeverFallsOut(cfg: Config, s: Session)
    requires SessionInv(cfg, s) && s.total <= cfg.budget
    ensures SearchPages(cfg, s).status != ReturnedNone
    decreases |s.responses|
  {
    var f := FetchPage(cfg, s);
    PageKeeps(cfg, s, f);
    match PageAfterFetch(cfg, s, f)
    case Done(o) =>
    case Next(s2) =>
      assert |s2.results| > |s.results|;
      LoopNeverFallsOut(cfg, s2);
  }

  /** `search` returns `None` exactly when the budget is negative (and it got as far as the loop), with an empty list. */
  lemma NoneOnlyForNegativeBudget(cfg: Config, start: int, cookies: Option<Cookies>, log: seq<Request>, responses: seq<Response>)
    ensures var o := RunSearch(cfg, start, cookies, log, responses);
      && (o.status == ReturnedNone <==>
          && FirstCollision(cfg.extras).None?
          && !Fetch(BuildUrls(cfg.fields).home, cfg.manages, cookies, responses).page.NoResponse?
          && cfg.budget < 0)
      && (o.status == ReturnedNone ==> o.session.results == [])
  {
    if FirstCollision(cfg.extras).None? {
      var home := Fetch(BuildUrls(cfg.fields).home, cfg.manages, cookies, responses);
      var s := Session(start, [], 0, false, home.cookies, log + home.sent, home.rest);
      if !home.page.NoResponse? && cfg.budget >= 0 {
        LoopNeverFallsOut(cfg, s);
      }
    }
  }

  /** An extra parameter named like a built-in one raises `ValueError` naming a built-in key of the extras, before any request is sent. */
  lemma CollisionRaisesFirst(cfg: Config, start: int, cookies: Option<Cookies>, log: seq<Request>, responses: seq<Response>)
    ensures var o := RunSearch(cfg, start, cookies, log, responses);
      && (o.status.ValueErrorRaised? <==> exists k | 0 <= k < |cfg.extras| :: cfg.extras[k].0 in BuiltinParams)
      && (o.status.ValueErrorRaised? ==>
          && o.status.param in BuiltinParams && o.status.param in KeysOf(cfg.extras)
          && o.session.sent == log && o.session.responses == responses && o.session.results == [])
  {
    CollisionCheck(cfg.extras);
    if FirstCollision(cfg.extras).None? {
      var home := Fetch(BuildUrls(cfg.fields).home, cfg.manages, cookies, responses);
      var s := Session(start, [], 0, false, home.cookies, log + home.sent, home.rest);
      if !home.page.NoResponse? {
        LoopRaisesNoValueError(cfg, s);
      }
    }
  }

  lemma {:induction false} LoopRaisesNoValueError(cfg: Config, s: Session)
    ensures !SearchPages(cfg, s).status.ValueErrorRaised?
    decreases |s.responses|
  {
    if s.total <= cfg.budget {
      var f := FetchPage(cfg, s);
      match PageAfterFetch(cfg, s, f)
      case Done(o) =>
      case Next(s2) =>
        LoopRaisesNoValueError(cfg, s2);
    }
  }

  /** The start of the page requested after `k` pages that moved on. */
  function PageStart(first: int, num: int, k: nat): int {
    first + k * num
  }

  /** When 429s are not managed, a page answered with 429 ends the search at once: the marker is appended and the list returned, after exactly one request. */
  lemma UnmanagedPage429(cfg: Config, s: Session)
    requires !cfg.manages && s.total <= cfg.budget
    requires s.responses != [] && s.responses[0].status == 429
    ensures SearchPages(cfg, s) == Outcome(Returned, s.(
      results := s.results + [Http429Sentinel],
      cookies := Some(CookiesAfter(s.responses[0].cookies)),
      sent := s.sent + [Request(PageRequestUrl(cfg, s.start), s.cookies)],
      responses := s.responses[1..]))
  {
    var f := FetchPage(cfg, s);
    assert f == Fetched(Http429Detected, Some(CookiesAfter(s.responses[0].cookies)),
      [Request(PageRequestUrl(cfg, s.start), s.cookies)], s.responses[1..]);
  }

  /** One page: its requests all go to the URL of the current `start`; moving on advances `start` by `num`, ending leaves it. */
  lemma PageRequests(cfg: Config, s: Session, f: Fetched)
    ensures match PageAfterFetch(cfg, s, f)
      case Done(o) => o.session.sent == s.sent + f.sent && o.session.start == s.start
      case Next(s2) => s2.sent == s.sent + f.sent && s2.start == s.start + cfg.fields.num
  {
  }

  /** A request to the template at `first + k * num` for some `k`. */
  ghost predicate RequestedFrom(cfg: Config, first: int, r: Request) {
    exists k: nat :: r.url == PageRequestUrl(cfg, PageStart(first, cfg.fields.num, k))
  }

  lemma FirstPageRequests(cfg: Config, first: int, reqs: seq<Request>)
    requires forall i | 0 <= i < |reqs| :: reqs[i].url == PageRequestUrl(cfg, first)
    ensures forall i | 0 <= i < |reqs| :: RequestedFrom(cfg, first, reqs[i])
  {
    forall i | 0 <= i < |reqs| ensures RequestedFrom(cfg, first, reqs[i]) {
      assert PageStart(first, cfg.fields.num, 0) == first;
    }
  }

  lemma LaterPageRequest(cfg: Config, first: int, r: Request)
    requires RequestedFrom(cfg, first + cfg.fields.num, r)
    ensures RequestedFrom(cfg, first, r)
  {
    var num := cfg.fields.num;
    var k: nat :| r.url == PageRequestUrl(cfg, PageStart(first + num, num, k));
    NextPageStart(first, num, k);
    assert r.url == PageRequestUrl(cfg, PageStart(first, num, k + 1));
  }

  lemma NextPageStart(first: int, num: int, k: nat)
    ensures PageStart(first + num, num, k) == PageStart(first, num, k + 1)
  {
    assert (k + 1) * num == k * num + num;
  }

  /** `start` is `first + k * num` for some `k`. */
  ghost predicate ReachedStart(first: int, num: int, start: int) {
    exists k: nat :: start == PageStart(first, num, k)
  }

  lemma StartReached(first: int, num: int)
    ensures ReachedStart(first, num, first)
  {
    assert first == PageStart(first, num, 0);
  }

  lemma LaterStart(first: int, num: int, start: int)
    requires ReachedStart(first + num, num, start)
    ensures ReachedStart(first, num, start)
  {
    var k: nat :| start == PageStart(first + num, num, k);
    NextPageStart(first, num, k);
  }

  /** Every request of one page, retries included, goes to the URL built for the current `start`. */
  lemma FetchPageRequests(cfg: Config, s: Session)
    ensures var f := FetchPage(cfg, s);
      forall i | 0 <= i < |f.sent| :: f.sent[i].url == PageRequestUrl(cfg, s.start) && RequestedFrom(cfg, s.start, f.sent[i])
  {
    var f := FetchPage(cfg, s);
    FirstPageRequests(cfg, s.start, f.sent);
  }

  /** The requests appended after the first `n` all come from the template at `first + k * num`. */
  ghost predicate RequestedAfter(cfg: Config, first: int, n: int, sent: seq<Request>) {
    0 <= n <= |sent| && forall i | n <= i < |sent| :: RequestedFrom(cfg, first, sent[i])
  }

  lemma DoneRequests(cfg: Config, s: Session, f: Fetched, sent: seq<Request>)
    requires forall i | 0 <= i < |f.sent| :: RequestedFrom(cfg, s.start, f.sent[i])
    requires sent == s.sent + f.sent
    ensures RequestedAfter(cfg, s.start, |s.sent|, sent)
  {
    forall i | |s.sent| <= i < |sent| ensures RequestedFrom(cfg, s.start, sent[i]) {
      assert sent[i] == f.sent[i - |s.sent|];
    }
  }

  lemma NextRequests(cfg: Config, first: int, prior: seq<Request>, page: seq<Request>, sent: seq<Request>)
    requires forall i | 0 <= i < |page| :: RequestedFrom(cfg, first, page[i])
    requires prior + page <= sent && RequestedAfter(cfg, first + cfg.fields.num, |prior + page|, sent)
    ensures prior <= sent && RequestedAfter(cfg, first, |prior|, sent)
  {
    var n := |prior + page|;
    forall i | |prior| <= i < |sent| ensures RequestedFrom(cfg, first, sent[i]) {
      if i < n {
        assert sent[i] == (prior + page)[i] == page[i - |prior|];
      } else {
        LaterPageRequest(cfg, first, sent[i]);
      }
    }
    assert prior <= sent by {
      assert sent[..|prior|] == (prior + page)[..|prior|] == prior;
    }
  }

  /** Every page request of the loop goes to the template at `start + k * num` for some `k`, and `start` ends at such a value. */
  lemma {:induction false} PagesRequested(cfg: Config, s: Session)
    ensures var o := SearchPages(cfg, s);
      && s.sent <= o.session.sent
      && RequestedAfter(cfg, s.start, |s.sent|, o.session.sent)
      && ReachedStart(s.start, cfg.fields.num, o.session.start)
    decreases |s.responses|
  {
    var o := SearchPages(cfg, s);
    StartReached(s.start, cfg.fields.num);
    if s.total <= cfg.budget {
      var f := FetchPage(cfg, s);
      PageRequests(cfg, s, f);
      FetchPageRequests(cfg, s);
      match PageAfterFetch(cfg, s, f)
      case Done(_) =>
        DoneRequests(cfg, s, f, o.session.sent);
      case Next(s2) =>
        PagesRequested(cfg, s2);
        NextRequests(cfg, s.start, s.sent, f.sent, o.session.sent);
        LaterStart(s.start, cfg.fields.num, o.session.start);
    }
  }

  /** An anchor that brings no new result: it has an href, and the filter rejects it or keeps a URL already listed. */
  predicate NoNewLink(a: Anchor, results: seq<Item>) {
    a.href.Some? &&
    match FilterSearchResultUrl(a.href.value)
    case None => true
    case Some(link) => link == "" || Url(link) in results
  }

  lemma {:induction false} NoNewLinks(anchors: seq<Anchor>, scan: Scan, budget: int, verbose: bool)
    requires Room(scan.results, budget)
    requires forall i | 0 <= i < |anchors| :: NoNewLink(anchors[i], scan.results)
    ensures var st := ProcessAnchors(anchors, scan, budget, verbose);
      st.Continue? && st.scan.results == scan.results && st.scan.total == scan.total && st.scan.found == scan.found
    decreases |anchors|
  {
    if anchors != [] {
      assert NoNewLink(anchors[0], scan.results);
      var next := scan.(linkBound := true);
      assert ProcessAnchor(anchors[0], scan, budget, verbose) == Continue(next);
      NoNewLinks(anchors[1..], next, budget, verbose);
    }
  }

  /** A page answered with 200 whose anchors bring no new result ends the search: the list and `start` stay as they were. */
  lemma ExhaustedPageEndsSearch(cfg: Config, s: Session)
    requires SessionInv(cfg, s) && s.total <= cfg.budget
    requires s.responses != [] && s.responses[0].status == 200
    requires forall i | 0 <= i < |s.responses[0].anchors| :: NoNewLink(s.responses[0].anchors[i], s.results)
    ensures var o := SearchPages(cfg, s);
      && o.status == Returned && o.session.results == s.results && o.session.start == s.start
      && o.session.responses == s.responses[1..]
  {
    var f := FetchPage(cfg, s);
    assert f.page == Html(s.responses[0].anchors) && f.rest == s.responses[1..];
    NoNewLinks(s.responses[0].anchors, Scan(s.results, s.total, 0, s.linkBound), cfg.budget, cfg.verbose);
  }
}
