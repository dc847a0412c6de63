# googleserp search client, modelled in Dafny

googleserp scrapes Google search result pages. A `SearchClient` holds the search settings:

- the query, already `quote_plus`-encoded;
- the top-level domain, the interface and result languages, the `tbs` time filter and SafeSearch;
- `start`, `num` and the country;
- extra GET parameters and a result budget (`max_search_result_urls_to_return`);
- whether it handles HTTP 429 itself, and whether results are bare URLs or verbose records.

`update_urls` builds five URLs from these fields: the home page and four search-page templates. `get_page` requests a URL. While doing so it keeps the cookies the response sets and accepts a pending EU `CONSENT` cookie. It also either retries after an HTTP 429 or reports it with the string `HTTP_429_DETECTED`.

`search` proceeds in this order:

1. It rejects extra parameters that reuse a built-in name.
2. It visits the home page.
3. It requests result pages until a stop condition holds.

For each page, `search` picks the template that fits `start` and `num` and appends the extra parameters. It then filters every anchor's `href` through `filter_search_result_urls`, which unwraps `/url?q=` redirector links and drops links to Google hosts. New links are recorded, and the ranks count the unique links. The loop stops at the budget, on a page with no new link, or on the 429 sentinel. Otherwise it advances `start` by `num`.

Modules:

- `Wrappers`: `Option`.
- `Text`: the Python string operations the client uses: `str(int)`, zero padding, `find`, `split`, ASCII `lower`, `strip`.
- `UrlLib`: `quote_plus`, `unquote_plus`, `urlparse`, `parse_qs`, and the `k=v&...` query layout.
- `Tbs`: `get_tbs` and a reader for its output.
- `SearchUrls`: `update_urls` as a function of the fields, the choice of template, the appending of extra parameters, and the collision check.
- `LinkFilter`: `filter_search_result_urls`.
- `PageFetch`: `get_page` over a scripted network, as a function.
  - Each request consumes the next response from a finite sequence.
  - A response carries its status, the cookies it sets, and the anchors of its HTML.
- `SearchLoop`: the page loop of `search`, written as functions (`ProcessAnchor`, `PageAfterFetch`, `SearchPages`, `RunSearch`).
- `SearchProperties`: what `search` guarantees about its result list, its status and the requests it sends.
- `SearchFindings`: the two defects described under "## Findings", with corrected definitions.
- `Client`: the `SearchClient` class itself.
  - Its fields are the Python attributes, plus the cookie jar, the log of requests sent and the responses still to come.
  - Its methods are the constructor, `update_urls`, `get_page` and `search`, the last split into one method per block of the loop.
  - Each method is proved against the functions above.

## Model

| member | source | states |
|---|---|---|
| Tbs.GetTbs | src/googleserp/google.py:16-32 | the tbs string has a fixed length of 41 and holds no `&`, so it cannot split the query it is put in |
| Tbs.FormatDateRoundTrip | src/googleserp/google.py:27-28 | `%m/%d/%Y` formatting of a valid date reads back to the same date |
| Tbs.TbsRoundTrip | src/googleserp/google.py:27-32 | both dates can be read back from the `cdr:1,cd_min:…,cd_max:…` string, in order |
| Text.Strip | src/googleserp/google.py:494-495 | the stripped title or description is a contiguous slice of the input; only whitespace is removed on either side, and the result neither starts nor ends with whitespace |
| UrlLib.QuotePlus | src/googleserp/google.py:100 | the encoded query holds only unreserved characters, `%` escapes and `+`; in particular no `&`, `=`, `#` or space |
| UrlLib.QuotePlusRoundTrip | src/googleserp/google.py:100 | `unquote_plus` recovers any ASCII query from its `quote_plus` encoding |
| UrlLib.NetlocOfAbsoluteUrl | src/googleserp/google.py:241-244 | `urlparse` of `scheme://host/…` succeeds, gives `host` as the netloc and the lower-cased scheme |
| UrlLib.AbsoluteUrlQuery | src/googleserp/google.py:230-231 | `urlparse` of `scheme://host/path?query` gives `host` as the netloc and `query` unchanged as the query |
| UrlLib.PathOnlyUrl | src/googleserp/google.py:230-231 | `urlparse` of a `/path?query` link has an empty netloc and returns the query unchanged |
| UrlLib.FirstValue | src/googleserp/google.py:234-238 | the value `parse_qs(query)[name][0]` reads is that of the first pair with the name, and it is absent exactly when no pair has the name (the `KeyError` case) |
| UrlLib.ParamsRoundTrip | src/googleserp/google.py:189-193 | reading a joined `k=v&…` query back gives exactly the joined parameters in order, provided no key or value holds a separator |
| SearchUrls.SearchTemplate | src/googleserp/google.py:189-193 | `url_search` is the search endpoint followed by `hl, lr, q, btnG, tbs, safe, cr, filter=0`, in that order |
| SearchUrls.NextPageTemplate | src/googleserp/google.py:196-200 | `url_next_page` carries `start` and no `btnG` or `num` |
| SearchUrls.SearchNumTemplate | src/googleserp/google.py:203-207 | `url_search_num` carries `num` and `btnG` but no `start` |
| SearchUrls.NextPageNumTemplate | src/googleserp/google.py:210-214 | `url_next_page_num` carries `start` and `num` but no `btnG` |
| SearchUrls.TemplatesCarryTheirParams | src/googleserp/google.py:406-415 | the template `search` picks carries `start` exactly when `start` is non-zero and `num` exactly when `num` is not 10 |
| SearchUrls.ExtraSuffixJoins | src/googleserp/google.py:419-420 | appending the extra parameters one by one gives the template's query extended by the extras, in order |
| SearchUrls.PageUrlParams | src/googleserp/google.py:405-420 | a page URL is the endpoint plus one query string, which parses back to the template parameters followed by the extras |
| SearchUrls.PageUrlKeys | src/googleserp/google.py:405-420 | with no collision, the request names `start` iff `start != 0`, `num` iff `num != 10` and `btnG` iff `start == 0` |
| SearchUrls.BuiltinKeysUnique | src/googleserp/google.py:389-392 | after the collision check passes, no built-in parameter name occurs twice in a page request |
| SearchUrls.ExtraFilterIsRepeated | src/googleserp/google.py:153-163 | `filter` is not among the checked names, so an extra `filter=0` passes the check and appears twice in the request |
| SearchUrls.CollisionIndex | src/googleserp/google.py:390-392 | the index of the first built-in name, in tuple order, that is an extra key; no earlier name is one |
| SearchUrls.CollisionCheck | src/googleserp/google.py:389-392 | the check fails exactly when some extra key is built-in, and it reports the first such name in `url_parameters` order |
| LinkFilter.FilterSound | src/googleserp/google.py:216-260 | a kept link parses, has a host without `google` in any letter case, and is either the link itself or, for a redirector, the URL it carries |
| LinkFilter.DirectLink | src/googleserp/google.py:240-253 | a non-redirector link is kept unchanged iff it parses with a non-empty host free of `google`; otherwise it is dropped |
| LinkFilter.AbsoluteUrl | src/googleserp/google.py:240-253 | for `scheme://host/…`: kept iff the host is non-empty and does not contain `google` after lower-casing |
| LinkFilter.HostTestIgnoresCase | src/googleserp/google.py:251 | the `google` test is blind to letter case: two hosts that differ only in the case of their ASCII letters are both kept or both rejected |
| LinkFilter.AnyCaseGoogleRejected | src/googleserp/google.py:251 | a host that spells `google` in any mix of upper- and lower-case letters is rejected |
| LinkFilter.AnyCaseGoogleLinkDropped | src/googleserp/google.py:240-253 | a direct link whose host spells `google` in any letter case is dropped by the filter |
| LinkFilter.GoogleHostRejected | src/googleserp/google.py:251-253 | a `http://www.google.com/…` URL is never accepted as a result |
| LinkFilter.RelativeRedirectorHasNoHost | src/googleserp/google.py:243-248 | a `/url?…` link has no netloc, so it is not itself a result |
| LinkFilter.AbsoluteRedirectorIsGoogle | src/googleserp/google.py:251-253 | a `http://www.google.com/url?…` link is not itself a result |
| LinkFilter.RedirectorIsNoResult | src/googleserp/google.py:230-253 | no redirector link is itself a result, so a kept link never points back at Google's redirector |
| LinkFilter.FilterIdempotent | src/googleserp/google.py:216-260 | filtering a kept URL again keeps it unchanged |
| LinkFilter.RedirectorQuery | src/googleserp/google.py:230-238 | a `/url?` link yields its first `q` value, else its first `url` value, filtered as a direct link |
| LinkFilter.AbsoluteRedirectorQuery | src/googleserp/google.py:230-238 | a `http://www.google.com/url?` link yields its first `q` value, else its first `url` value, filtered as a direct link |
| LinkFilter.RedirectorSpellingsAgree | src/googleserp/google.py:230 | the relative and the absolute redirector spellings yield the same result for the same query |
| LinkFilter.RedirectorQ | src/googleserp/google.py:233-235 | `/url?q=<quoted target>` unwraps to the target, which is then accepted or rejected as a direct link |
| LinkFilter.RedirectorUrl | src/googleserp/google.py:236-238 | `/url?url=<quoted target>` unwraps to the target when there is no `q` |
| LinkFilter.RedirectorPrefersQ | src/googleserp/google.py:234-238 | when both `url` and `q` are present, `q` wins even if it comes second |
| LinkFilter.RedirectorWithoutTarget | src/googleserp/google.py:234-256 | a redirector with neither `q` nor `url` raises `KeyError` inside the `try`, and the link is dropped |
| PageFetch.PendingConsentAccepted | src/googleserp/google.py:309-335 | a `CONSENT=PENDING+<n>…` cookie is replaced by a jar that holds only `CONSENT=YES+shp.gws-20211108-0-RC1.fr+F+<n>` |
| PageFetch.OtherCookiesKept | src/googleserp/google.py:294-341 | without a pending consent cookie, the response's cookies are kept as they are |
| PageFetch.CookiesAfterIdempotent | src/googleserp/google.py:309-335 | rewriting the consent cookie twice has the same effect as rewriting it once |
| PageFetch.Fetch | src/googleserp/google.py:275-369 | every request goes to the given URL, and every response but the last is a 429. The sentinel is reported iff 429s are not managed and the first response is a 429. Nothing is returned only when the script runs out (empty, or managed 429s to the end) |
| PageFetch.FetchSendsKeptCookies | src/googleserp/google.py:290-294 | the first request sends the client's cookies; each retry sends the jar kept from the previous response |
| PageFetch.FetchKeepsLastResponse | src/googleserp/google.py:294-346 | afterwards the client holds the last response's cookies after the consent rewrite. The page's anchors are that response's when its status is 200, and there are none otherwise |
| PageFetch.RetryCarriesConsent | src/googleserp/google.py:335-364 | after a 429 that set a pending consent cookie, the retry sends the accepted consent cookie and nothing else |
| SearchLoop.PageAfterFetch | src/googleserp/google.py:423-519 | the loop goes on to another page iff the page was HTML and its anchor loop ran to the end having found a new link. It then goes on at `start + num`, with the page's requests logged and its responses consumed. The 429 sentinel returns the list with the marker appended |
| SearchProperties.SentinelRejected | src/googleserp/google.py:427-428 | the filter never accepts `HTTP_429_DETECTED`, so the sentinel cannot be mistaken for a result |
| SearchProperties.SentinelNotResult | src/googleserp/google.py:427-428 | a well-formed result list never contains the sentinel |
| SearchProperties.AcceptedNonEmpty | src/googleserp/google.py:459-460 | the filter never yields `""`, so `if not link` only drops rejected links |
| SearchProperties.NewLinkAppended | src/googleserp/google.py:483-507 | a kept link not yet listed is appended: a bare URL, or a record ranked `total + 1`. Both counters grow by one, and `search` returns iff the list has reached the budget |
| SearchProperties.ListedLinkKept | src/googleserp/google.py:483-507 | a kept link already listed changes neither the list nor the counters; `search` returns iff the list has reached the budget |
| SearchProperties.AnchorsExtendList | src/googleserp/google.py:449-507 | the anchor loop only appends to the list |
| SearchProperties.PageListsItsLinks | src/googleserp/google.py:449-507 | after an anchor loop that ran to its end, the kept link of every anchor of the page is in the list |
| SearchProperties.UnmanagedPage429 | src/googleserp/google.py:423-429 | when 429s are not managed, a page answered with 429 ends the search after exactly one request, returning the list with `HTTP_429_DETECTED` appended |
| SearchProperties.ProcessAnchorKeeps | src/googleserp/google.py:449-507 | one anchor appends at most one result, counted in both counters. The list stays well formed, and it stops early only at the budget |
| SearchProperties.ProcessAnchorsKeeps | src/googleserp/google.py:449-507 | the same facts for a whole page of anchors: the list only grows, and `valid_links_found_in_this_search` counts exactly what was appended |
| SearchProperties.PageKeeps | src/googleserp/google.py:399-519 | a page either ends the search with a final list, or grows the list strictly, advances `start` by `num` and logs its requests |
| SearchProperties.SearchPagesShape | src/googleserp/google.py:399-536 | the loop only extends the list it starts from, and ends with a final list |
| SearchProperties.RunSearchFinal | src/googleserp/google.py:371-536 | every outcome of `search` leaves a final list |
| SearchProperties.SearchResults | src/googleserp/google.py:371-536 | the list never exceeds the budget (except for one link when the budget is ≤ 0). Ranks are 1, 2, … in verbose mode. Every entry is a filtered link. The sentinel appears only last and only when 429s are not managed. Bare URLs are distinct |
| SearchProperties.LoopNeverFallsOut | src/googleserp/google.py:399-513 | with a budget that is not exceeded on entry, the `while` condition never becomes false: the loop always ends by a `return` or an exception |
| SearchProperties.NoneOnlyForNegativeBudget | src/googleserp/google.py:389-399 | `search` returns `None` iff there is no collision, the home page was fetched and the budget is negative; the list is then empty |
| SearchProperties.CollisionRaisesFirst | src/googleserp/google.py:389-392 | `ValueError` is raised iff some extra key is a built-in name. It names one of them, and nothing has been requested yet |
| SearchProperties.LoopRaisesNoValueError | src/googleserp/google.py:399-536 | the page loop never raises `ValueError` |
| SearchProperties.PageRequests | src/googleserp/google.py:515-519 | a page that continues advances `start` by exactly `num`; a page that ends leaves `start` unchanged |
| SearchProperties.FetchPageRequests | src/googleserp/google.py:405-423 | each request of a page, retries included, goes to the URL built for the current `start` |
| SearchProperties.PagesRequested | src/googleserp/google.py:399-519 | every request the loop sends goes to the page URL for `start + k * num` for some k, and the final `start` is of that form |
| SearchProperties.NoNewLinks | src/googleserp/google.py:449-507 | anchors that yield nothing new leave the list and both counters unchanged |
| SearchProperties.ExhaustedPageEndsSearch | src/googleserp/google.py:509-513 | a 200 page with no new link ends the search, returning the list as it was, without advancing `start` |
| SearchFindings.VerboseRepeatsUrl | src/googleserp/google.py:483-500 | in verbose mode, a page that repeats the same link gets two records for it |
| SearchFindings.MissingFirstHrefRaises | src/googleserp/google.py:451-455 | when the first anchor of the first page lacks `href`, `search` raises `UnboundLocalError` and no result is returned |
| SearchFindings.FirstPageCrashes | src/googleserp/google.py:451-455 | the same, stated for the page loop |
| SearchFindings.IntendedNeverRaises | src/googleserp/google.py:451-455 | the corrected anchor loop, which skips an anchor without `href`, never raises |
| SearchFindings.IntendedStepDistinct | src/googleserp/google.py:483-500 | one corrected anchor step keeps the listed URLs pairwise distinct, in both modes |
| SearchFindings.IntendedKeepsUrlsDistinct | src/googleserp/google.py:483-500 | the corrected anchor loop keeps the listed URLs pairwise distinct, verbose records included |
| SearchFindings.ListedIffBare | src/googleserp/google.py:483-500 | for a list of bare URLs, the corrected membership test and the written `link not in list` agree |
| SearchFindings.RecordAgrees | src/googleserp/google.py:483-500 | in non-verbose mode, the corrected and the written recording of a link coincide |
| SearchFindings.StepAgrees | src/googleserp/google.py:449-507 | once `link` is bound, and in non-verbose mode, the corrected and the written anchor steps coincide |
| SearchFindings.IntendedAgreesWhereRight | src/googleserp/google.py:449-507 | away from both defects, the corrected anchor loop computes exactly what the written one does |
| Client.InitialCookies | src/googleserp/google.py:145-150 | the jar holds only `GOOGLE_ABUSE_EXEMPTION` iff a non-empty exemption is given, and is `None` otherwise |
| Client.SearchClient.constructor | src/googleserp/google.py:100-170 | the query is stored `quote_plus`-encoded, the result language lower-cased and `num` capped at 100. The user agent defaults when none or an empty one is given. Cookies come from the exemption. The URLs are those `update_urls` builds |
| Client.SearchClient.UpdateUrls | src/googleserp/google.py:182-214 | the five URL attributes become what the current fields determine |
| Client.SearchClient.GetPage | src/googleserp/google.py:275-369 | the page, the new cookie jar, the requests logged and the responses consumed are exactly those of `Fetch` |
| Client.SearchClient.KeepCookies | src/googleserp/google.py:294-335 | the client keeps the response's cookies after the consent rewrite |
| Client.SearchClient.PageRequest | src/googleserp/google.py:405-420 | the URL requested is the selected template followed by every extra parameter |
| Client.SearchClient.FindCollision | src/googleserp/google.py:389-392 | the loop over `url_parameters` finds the first built-in name used as an extra key |
| Client.SearchClient.AddLink | src/googleserp/google.py:462-500 | recording a filtered link: appended (as a URL or a ranked record) and counted iff `link not in search_result_list` |
| Client.SearchClient.StepAnchor | src/googleserp/google.py:450-507 | one iteration of the anchor loop changes the list and the counters as `ProcessAnchor` says, and reports a budget stop or an unbound-`link` crash |
| Client.SearchClient.ScanAnchors | src/googleserp/google.py:446-507 | the anchor loop of one page leaves the list as `ProcessAnchors` says |
| Client.SearchClient.NextStart | src/googleserp/google.py:515-519 | `start` grows by `num`, all other fields are kept and the URLs are rebuilt to match |
| Client.SearchClient.SearchPage | src/googleserp/google.py:405-519 | one pass of the `while` body agrees with `PageAfterFetch` on the fetched page |
| Client.SearchClient.ScanPage | src/googleserp/google.py:425-519 | the handling of the 429 sentinel, and of an HTML page, agrees with `PageAfterFetch` |
| Client.SearchClient.ScanHtml | src/googleserp/google.py:445-519 | the anchor loop and the exhaustion test of an HTML page agree with `PageAfterFetch` |
| Client.SearchClient.SearchLoop | src/googleserp/google.py:397-536 | the `while` loop ends in the status and state `SearchPages` gives |
| Client.SearchClient.SearchFromHome | src/googleserp/google.py:394-536 | the home page request, then the loop, agree with `RunSearch` |
| Client.SearchClient.CheckedSearch | src/googleserp/google.py:389-536 | the collision check, then the search, agree with `RunSearch` |
| Client.SearchClient.Search | src/googleserp/google.py:371-536 | `search()` resets the list and normalises `extra_params`. It then ends in the status, list, `start`, cookies and request log that `RunSearch` gives for the client's settings, so every `SearchProperties` lemma applies to it |
| Client.CollisionOutcome | src/googleserp/google.py:389-392 | on a collision, `search` raises before any request and leaves the session untouched |
| Client.HomeThenPages | src/googleserp/google.py:394-399 | without a collision, `search` requests the home page and enters the loop from the state it leaves |

## Left out

- The HTTP layer (`httpx`, the proxy, `verify_ssl`, the timeout, the `User-Agent` header) is not modelled. The network is a finite sequence of scripted responses, and each request consumes the next one.
- The status `OutOfResponses` is a modelling artefact: it stands for the script running out. The unbounded retry on managed 429s therefore ends when the script does.
- `asyncio.sleep` and the random delay between pages are left out, because time has no effect on the results.
- `http_429_detected` and the cool-off attributes are left out: they only scale the floating-point sleep time.
- `logging` and the `verbosity` level are left out: they have no effect on results.
- The warning for budgets above 400 is left out, for the same reason.
- BeautifulSoup is not modelled. A response carries the anchors found in its HTML: for each one, its `href`, its text and the texts of its grandparent's second and third children.
  - The `id="search"` lookup and the `gbar` fallback are therefore not modelled.
  - A page whose status is neither 200 nor 429 has no anchors.
  - Failing `get_text()` calls are modelled only for the description, as an absent text; the title always reads.
- A 200 page whose body is literally `HTTP_429_DETECTED` is not modelled. The page would be taken for the sentinel.
- Cookie jars are maps from name to value.
- The conversion `httpx.cookies.jar.CookiesJar(response.cookies)` at line 316 is assumed to succeed and to give the response's cookies. `httpx` is not part of this model. If that attribute path does not exist, the call raises `AttributeError`, which the enclosing `except KeyError` does not catch; `get_page` would then fail on every pending consent cookie instead of accepting it as `PageFetch.PendingConsentAccepted` states.
- `extra_params` is a sequence of pairs, in insertion order, like a Python dict. Duplicate keys are not excluded.
- The constructor stores the URLs that `update_urls` builds (`BuildUrls`) instead of calling the method. The resulting state is the same.
- Lines 521-526 of `search` compute a `url` that is never used: the next iteration overwrites it.
- The proxy dict, `minimum_delay_between_paged_results_in_seconds` and `logger` are not fields of the model.
- UrlLib.UrlParse: only splits the scheme, netloc, path, query and fragment, and fails on unbalanced brackets in the netloc.
  - It does not strip leading whitespace.
  - It does not remove tab and newline characters.
  - It does not check the port or the NFKC normalisation of the netloc.
- UrlLib.UnquotePlus: decodes each `%XX` escape as the character with that code (Latin-1). Python decodes runs of escapes as UTF-8.
- UrlLib.QuotePlusRoundTrip: proved for ASCII queries only, because of the Latin-1 decoding above.
- LinkFilter.RedirectorQ: proved for ASCII targets only, for the same reason.
- LinkFilter.RedirectorUrl: proved for ASCII targets only, for the same reason.
- LinkFilter.RedirectorPrefersQ: proved for ASCII targets only, for the same reason.
- Text.AsciiLower: lower-cases ASCII letters only. Python's `str.lower` also folds other letters, and that affects `lang_result` and the `google` host test.
- Tbs.FormatDate: pads years below 1000 to four digits. The platform's `strftime` may not pad them.
- Tbs.GetTbs: takes dates as year, month and day. The `datetime.date` methods other than `strftime` are not modelled.
- SearchProperties.SearchResults: describes non-verbose deduplication only. In verbose mode, duplicates are not excluded, as explained under "## Findings".

## Findings

| source | as written | input that shows it | evidently intended | confidence | as-written member | corrected member |
|---|---|---|---|---|---|---|
| src/googleserp/google.py:483-500 | `link not in self.search_result_list` compares the link string with the dictionaries verbose mode appends, so it is always true | `verbose_output=True` and a result page with two anchors whose `href` filters to the same URL | each URL is listed once in verbose mode too, as it is in plain mode | not executed | SearchFindings.VerboseRepeatsUrl | SearchFindings.IntendedKeepsUrlsDistinct |
| src/googleserp/google.py:451-455 | the `KeyError` handler logs `link`, which is not yet bound when the search's first anchor lacks `href`; this raises `UnboundLocalError` | the home page and the first result page both return 200, and that page's first anchor has no `href` | the anchor is skipped and the loop goes on | not executed | SearchFindings.MissingFirstHrefRaises | SearchFindings.IntendedNeverRaises |

The corrected anchor step (`SearchFindings.ProcessAnchorIntended`) skips an anchor without `href` and tests membership by URL. `SearchFindings.IntendedAgreesWhereRight` proves that it computes what the written step computes whenever neither defect can arise. `SearchClient.Search` follows the code as written. Therefore every property proved about it also holds for the corrected loop on those inputs.
