/**
 * The result-gathering loop of `search`, as functions over a scripted
 * network: how the anchors of one page are turned into results, when a page
 * ends the search, and how the next page is requested.
 */
module SearchLoop {
  import opened Wrappers
  import opened Text
  import opened UrlLib
  import opened SearchUrls
  import opened LinkFilter
  import opened PageFetch

  /** One entry of `search_result_list`: a bare URL, or the record verbose output appends. */
  datatype Item = Url(url: string) | Record(rank: int, title: string, description: string, url: string)

  /** The string `search` appends when `get_page` reports an HTTP 429. */
  const Http429Sentinel: Item := Url("HTTP_429_DETECTED")

  /** The description of an anchor: the grandparent's second child's text, or its third child's when that is empty; "" when reading fails. */
  function Description(a: Anchor): string {
    match a.desc1
    case None => ""
    case Some(d) =>
      if d != "" then d
      else match a.desc2
        case None => ""
        case Some(d2) => d2
  }

  /** The state of the anchor loop: the result list, `total_valid_links_found`, `valid_links_found_in_this_search`, and whether the local `link` is bound yet. */
  datatype Scan = Scan(results: seq<Item>, total: int, found: int, linkBound: bool)

  /** How one anchor (or a page of them) leaves the loop: go on, return the list because the budget is reached, or fail reading the unbound `link`. */
  datatype Step = Continue(scan: Scan) | Stop(scan: Scan) | Crash(scan: Scan)

  /** The entry appended for a new link: a record ranked after the links counted so far, or the bare URL. */
  function NewItem(a: Anchor, s: Scan, link: string, verbose: bool): Item {
    if verbose then Record(s.total + 1, Strip(a.text), Strip(Description(a)), link) else Url(link)
  }

  /** The scan after a filtered link: appended and counted when `link not in search_result_list`. */
  function Record1(a: Anchor, s: Scan, link: string, verbose: bool): Scan {
    if Url(link) !in s.results then Scan(s.results + [NewItem(a, s, link, verbose)], s.total + 1, s.found + 1, true)
    else s.(linkBound := true)
  }

  /** One pass of the anchor loop, code as written. */
  function ProcessAnchor(a: Anchor, s: Scan, budget: int, verbose: bool): Step {
    match a.href
    case None => if s.linkBound then Continue(s) else Crash(s)
    case Some(href) =>
      match FilterSearchResultUrl(href)
      case None => Continue(s.(linkBound := true))
      case Some(link) =>
        if link == "" then Continue(s.(linkBound := true))
        else
          var next := Record1(a, s, link, verbose);
          if budget <= |next.results| then Stop(next) else Continue(next)
  }

  /** The anchor step once the `href` has been read and filtered. */
  lemma AnchorWithHref(a: Anchor, s: Scan, budget: int, verbose: bool, link: Option<string>)
    requires a.href.Some? && link == FilterSearchResultUrl(a.href.value)
    ensures link.None? || link.value == "" ==> ProcessAnchor(a, s, budget, verbose) == Continue(s.(linkBound := true))
    ensures link.Some? && link.value != "" ==>
      var next := Record1(a, s, link.value, verbose);
      ProcessAnchor(a, s, budget, verbose) == if budget <= |next.results| then Stop(next) else Continue(next)
  {
  }

  /** The anchor loop over one page. */
  function ProcessAnchors(anchors: seq<Anchor>, s: Scan, budget: int, verbose: bool): Step
    decreases |anchors|
  {
    if anchors == [] then Continue(s)
    else
      match ProcessAnchor(anchors[0], s, budget, verbose)
      case Continue(next) => ProcessAnchors(anchors[1..], next, budget, verbose)
      case other => other
  }

  /** What one search runs with: the URL fields, the extra parameters, the result budget and the two switches. */
  datatype Config = Config(fields: UrlFields, extras: seq<(string, string)>, budget: int, manages: bool, verbose: bool)

  /** The state between pages: `start`, the list, the counter, whether `link` is bound, the cookies, and the network. */
  datatype Session = Session(
    start: int,
    results: seq<Item>,
    total: int,
    linkBound: bool,
    cookies: Option<Cookies>,
    sent: seq<Request>,
    responses: seq<Response>)

  /** How `search` ends: raising `ValueError` or `UnboundLocalError`, falling out of the loop (returning `None`), returning the list, or (model artefact) running out of scripted responses. */
  datatype Status = ValueErrorRaised(param: string) | NameErrorRaised | ReturnedNone | Returned | OutOfResponses

  datatype Outcome = Outcome(status: Status, session: Session)

  /** The URL of the page request made with this `start`. */
  function PageRequestUrl(cfg: Config, start: int): string {
    PageUrl(cfg.fields.(start := start), cfg.extras)
  }

  /** The session once a page's anchor loop has ended in `step`. */
  function AfterAnchors(s: Session, step: Step): Session {
    s.(results := step.scan.results, total := step.scan.total, linkBound := step.scan.linkBound)
  }

  /** What one page of the loop leads to: the end of the search, or the session the next page starts from. */
  datatype PageResult = Done(outcome: Outcome) | Next(session: Session)

  /** One pass of the `while` body once `get_page` has answered with `f`. */
  function PageAfterFetch(cfg: Config, s: Session, f: Fetched): (r: PageResult)
    ensures r.Next? <==> (f.page.Html? &&
      var st := ProcessAnchors(f.page.anchors, Scan(s.results, s.total, 0, s.linkBound), cfg.budget, cfg.verbose);
      st.Continue? && st.scan.found != 0)
    ensures r.Next? ==> r.session.start == s.start + cfg.fields.num && r.session.sent == s.sent + f.sent && r.session.responses == f.rest
    ensures f.page.Http429Detected? ==>
      r == Done(Outcome(Returned, s.(results := s.results + [Http429Sentinel], cookies := f.cookies, sent := s.sent + f.sent, responses := f.rest)))
  {
    var s1 := s.(cookies := f.cookies, sent := s.sent + f.sent, responses := f.rest);
    match f.page
    case NoResponse => Done(Outcome(OutOfResponses, s1))
    case Http429Detected => Done(Outcome(Returned, s1.(results := s1.results + [Http429Sentinel])))
    case Html(anchors) =>
      var step := ProcessAnchors(anchors, Scan(s1.results, s1.total, 0, s1.linkBound), cfg.budget, cfg.verbose);
      var s2 := AfterAnchors(s1, step);
      match step
      case Crash(_) => Done(Outcome(NameErrorRaised, s2))
      case Stop(_) => Done(Outcome(Returned, s2))
      case Continue(scan) =>
        if scan.found == 0 then Done(Outcome(Returned, s2))
        else Next(s2.(start := s.start + cfg.fields.num))
  }

  /** The request of the page at `s.start`. */
  function FetchPage(cfg: Config, s: Session): Fetched {
    Fetch(PageRequestUrl(cfg, s.start), cfg.manages, s.cookies, s.responses)
  }

  /** The `while` loop of `search`, from one page request on. */
  function SearchPages(cfg: Config, s: Session): Outcome
    decreases |s.responses|
  {
    if !(s.total <= cfg.budget) then Outcome(ReturnedNone, s)
    else
      var f := FetchPage(cfg, s);
      match PageAfterFetch(cfg, s, f)
      case Done(o) => o
      case Next(s2) => SearchPages(cfg, s2)
  }

  /** `search()`: the collision check, the home page request, then the page loop. */
  function RunSearch(cfg: Config, start: int, cookies: Option<Cookies>, log: seq<Request>, responses: seq<Response>): Outcome {
    match FirstCollision(cfg.extras)
    case Some(p) => Outcome(ValueErrorRaised(p), Session(start, [], 0, false, cookies, log, responses))
    case None =>
      var home := Fetch(BuildUrls(cfg.fields).home, cfg.manages, cookies, responses);
      var s := Session(start, [], 0, false, home.cookies, log + home.sent, home.rest);
      if home.page.NoResponse? then Outcome(OutOfResponses, s)
      else SearchPages(cfg, s)
  }
}
