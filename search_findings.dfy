/**
 * Two places where the anchor loop of `search` does not do what it evidently
 * means to: in verbose mode the duplicate check compares a URL with records
 * and never matches, and an anchor without `href` seen before any link is
 * bound makes the warning read an unbound local. The anchor step as written
 * is `SearchLoop.ProcessAnchor`; the corrected step is defined here.
 */
module SearchFindings {
  import opened Wrappers
  import opened Text
  import opened UrlLib
  import opened SearchUrls
  import opened LinkFilter
  import opened PageFetch
  import opened SearchLoop
  import opened SearchProperties

  /** As written: in verbose mode an anchor seen twice is listed twice, under two ranks. */
  lemma VerboseRepeatsUrl(a: Anchor, s: Scan, budget: int, href: string, link: string)
    requires a.href == Some(href) && FilterSearchResultUrl(href) == Some(link)
    requires ScanInv(s, budget, true) && |s.results| + 2 < budget
    ensures var st := ProcessAnchors([a, a], s, budget, true); var n := |s.results|;
      && st.Continue? && |st.scan.results| == n + 2
      && st.scan.results[n].url == link && st.scan.results[n + 1].url == link
  {
    AcceptedNonEmpty(href, link);
    assert Url(link) !in s.results by {
      forall i | 0 <= i < |s.results| ensures s.results[i] != Url(link) {
        assert IsResultItem(s.results[i], i, true);
      }
    }
    var next := Record1(a, s, link, true);
    assert ProcessAnchor(a, s, budget, true) == Continue(next);
    assert Url(link) !in next.results by {
      assert next.results == s.results + [NewItem(a, s, link, true)];
    }
    var aa: seq<Anchor> := [a, a];
    assert aa[1..] == [a];
    var last := Record1(a, next, link, true);
    assert ProcessAnchors([a], next, budget, true) == ProcessAnchors([], last, budget, true);
  }

  /** As written: when the first anchor of the first page has no `href`, `search` fails reading `link`. */
  lemma MissingFirstHrefRaises(cfg: Config, start: int, cookies: Option<Cookies>, log: seq<Request>, responses: seq<Response>)
    requires FirstCollision(cfg.extras).None? && cfg.budget >= 0
    requires |responses| >= 2 && responses[0].status == 200 && responses[1].status == 200
    requires responses[1].anchors != [] && responses[1].anchors[0].href.None?
    ensures var o := RunSearch(cfg, start, cookies, log, responses);
      o.status == NameErrorRaised && o.session.results == []
  {
    var home := Fetch(BuildUrls(cfg.fields).home, cfg.manages, cookies, responses);
    assert home.page.Html? && home.rest == responses[1..] && home.sent != [];
    var s := Session(start, [], 0, false, home.cookies, log + home.sent, home.rest);
    assert RunSearch(cfg, start, cookies, log, responses) == SearchPages(cfg, s);
    FirstPageCrashes(cfg, s, FetchPage(cfg, s));
  }

  lemma FirstPageCrashes(cfg: Config, s: Session, f: Fetched)
    requires s.results == [] && s.total == 0 && !s.linkBound && cfg.budget >= 0
    requires f == FetchPage(cfg, s) && |s.responses| >= 1 && s.responses[0].status == 200
    requires s.responses[0].anchors != [] && s.responses[0].anchors[0].href.None?
    ensures SearchPages(cfg, s).status == NameErrorRaised && SearchPages(cfg, s).session.results == []
  {
    assert f.page == Html(s.responses[0].anchors);
    var scan := Scan([], 0, 0, false);
    assert ProcessAnchor(s.responses[0].anchors[0], scan, cfg.budget, cfg.verbose) == Crash(scan);
    assert ProcessAnchors(s.responses[0].anchors, scan, cfg.budget, cfg.verbose) == Crash(scan);
  }

  /** The URLs of the list, whatever the shape of its entries. */
  function ListedUrls(results: seq<Item>): (urls: seq<string>)
    ensures |urls| == |results| && forall i | 0 <= i < |results| :: urls[i] == results[i].url
  {
    seq(|results|, i requires 0 <= i < |results| => results[i].url)
  }

  /** Corrected: a link is new when no entry of the list, bare or record, carries it. */
  function RecordIntended(a: Anchor, s: Scan, link: string, verbose: bool): Scan {
    if link !in ListedUrls(s.results) then Scan(s.results + [NewItem(a, s, link, verbose)], s.total + 1, s.found + 1, true)
    else s.(linkBound := true)
  }

  /** Corrected anchor step: an anchor without `href` is skipped, and duplicates are recognised in both modes. */
  function ProcessAnchorIntended(a: Anchor, s: Scan, budget: int, verbose: bool): Step {
    match a.href
    case None => Continue(s)
    case Some(href) =>
      match FilterSearchResultUrl(href)
      case None => Continue(s.(linkBound := true))
      case Some(link) =>
        if link == "" then Continue(s.(linkBound := true))
        else
          var next := RecordIntended(a, s, link, verbose);
          if budget <= |next.results| then Stop(next) else Continue(next)
  }

  function ProcessAnchorsIntended(anchors: seq<Anchor>, s: Scan, budget: int, verbose: bool): Step
    decreases |anchors|
  {
    if anchors == [] then Continue(s)
    else
      match ProcessAnchorIntended(anchors[0], s, budget, verbose)
      case Continue(next) => ProcessAnchorsIntended(anchors[1..], next, budget, verbose)
      case other => other
  }

  /** Corrected: the anchor loop never fails, whatever the anchors. */
  lemma {:induction false} IntendedNeverRaises(anchors: seq<Anchor>, s: Scan, budget: int, verbose: bool)
    ensures !ProcessAnchorsIntended(anchors, s, budget, verbose).Crash?
    decreases |anchors|
  {
    if anchors != [] {
      match ProcessAnchorIntended(anchors[0], s, budget, verbose)
      case Continue(next) => IntendedNeverRaises(anchors[1..], next, budget, verbose);
      case Stop(_) =>
    }
  }

  predicate DistinctUrls(results: seq<Item>) {
    forall i, j | 0 <= i < j < |results| :: results[i].url != results[j].url
  }

  lemma IntendedStepDistinct(a: Anchor, s: Scan, budget: int, verbose: bool)
    requires DistinctUrls(s.results)
    ensures DistinctUrls(ProcessAnchorIntended(a, s, budget, verbose).scan.results)
  {
    match a.href
    case None =>
    case Some(href) =>
      match FilterSearchResultUrl(href)
      case None =>
      case Some(link) =>
        if link != "" && link !in ListedUrls(s.results) {
          var r := s.results + [NewItem(a, s, link, verbose)];
          forall i, j | 0 <= i < j < |r| ensures r[i].url != r[j].url {
            if j == |s.results| {
              assert ListedUrls(s.results)[i] == s.results[i].url;
            } else {
              assert r[i] == s.results[i] && r[j] == s.results[j];
            }
          }
        }
  }

  /** Corrected: no URL is listed twice, in verbose mode too. */
  lemma {:induction false} IntendedKeepsUrlsDistinct(anchors: seq<Anchor>, s: Scan, budget: int, verbose: bool)
    requires DistinctUrls(s.results)
    ensures DistinctUrls(ProcessAnchorsIntended(anchors, s, budget, verbose).scan.results)
    decreases |anchors|
  {
    if anchors != [] {
      IntendedStepDistinct(anchors[0], s, budget, verbose);
      match ProcessAnchorIntended(anchors[0], s, budget, verbose)
      case Continue(next) => IntendedKeepsUrlsDistinct(anchors[1..], next, budget, verbose);
      case Stop(_) =>
      case Crash(_) =>
    }
  }

  predicate AllBare(results: seq<Item>) {
    forall i | 0 <= i < |results| :: results[i].Url?
  }

  lemma ListedIffBare(results: seq<Item>, l: string)
    requires AllBare(results)
    ensures (l in ListedUrls(results)) == (Url(l) in results)
  {
    if l in ListedUrls(results) {
      var i :| 0 <= i < |results| && ListedUrls(results)[i] == l;
      assert results[i] == Url(l);
    }
    if Url(l) in results {
      var i :| 0 <= i < |results| && results[i] == Url(l);
      assert ListedUrls(results)[i] == l;
    }
  }

  lemma StepAgrees(a: Anchor, s: Scan, budget: int)
    requires s.linkBound && AllBare(s.results)
    ensures ProcessAnchorIntended(a, s, budget, false) == ProcessAnchor(a, s, budget, false)
  {
    if a.href.Some? {
      var link := FilterSearchResultUrl(a.href.value);
      if link.Some? && link.value != "" {
        RecordAgrees(a, s, link.value);
        IntendedWithLink(a, s, budget, link.value);
        AnchorWithHref(a, s, budget, false, link);
      }
    }
  }

  /** The corrected step on an anchor whose `href` the filter keeps. */
  lemma IntendedWithLink(a: Anchor, s: Scan, budget: int, link: string)
    requires a.href.Some? && FilterSearchResultUrl(a.href.value) == Some(link) && link != ""
    ensures var next := RecordIntended(a, s, link, false);
      ProcessAnchorIntended(a, s, budget, false) == if budget <= |next.results| then Stop(next) else Continue(next)
  {
  }

  lemma RecordAgrees(a: Anchor, s: Scan, link: string)
    requires AllBare(s.results)
    ensures RecordIntended(a, s, link, false) == Record1(a, s, link, false)
  {
    ListedIffBare(s.results, link);
  }

  lemma StepKeepsBare(a: Anchor, s: Scan, budget: int)
    requires s.linkBound && AllBare(s.results)
    ensures var st := ProcessAnchor(a, s, budget, false); st.scan.linkBound && AllBare(st.scan.results)
  {
  }

  /** Where the code as written is right (bare URLs, `link` already bound), the corrected loop does the same. */
  lemma {:induction false} IntendedAgreesWhereRight(anchors: seq<Anchor>, s: Scan, budget: int)
    requires s.linkBound && AllBare(s.results)
    ensures ProcessAnchorsIntended(anchors, s, budget, false) == ProcessAnchors(anchors, s, budget, false)
    decreases |anchors|
  {
    if anchors != [] {
      StepAgrees(anchors[0], s, budget);
      StepKeepsBare(anchors[0], s, budget);
      match ProcessAnchor(anchors[0], s, budget, false)
      case Continue(next) =>
        IntendedAgreesWhereRight(anchors[1..], next, budget);
      case Stop(_) =>
      case Crash(_) =>
    }
  }
}
