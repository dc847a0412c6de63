// Fetching one page: the CONSENT cookie rewrite and the HTTP 429 branching
// of SearchClient.get_page. The network is a finite, scripted sequence of
// responses; each request consumes the next one.
module PageFetch {
  import opened Wrappers
  import opened Text

  type Cookies = map<string, string>

  /** One <a> element of a result page, as far as the search reads it:
    * its href attribute (absent or present), its text, and the text of the
    * second and third children of its grandparent (None when reading them
    * fails). */
  datatype Anchor = Anchor(href: Option<string>, text: string, desc1: Option<string>, desc2: Option<string>)

  /** A response: the status code, the cookies it sets and, for HTML bodies,
    * the anchors found in them. */
  datatype Response = Response(status: int, cookies: Cookies, anchors: seq<Anchor>)

  /** A request as sent: its URL and the cookies sent with it. */
  datatype Request = Request(url: string, cookies: Option<Cookies>)

  /** What get_page hands back: the page's anchors, the 429 sentinel, or
    * (model artefact) nothing because the scripted responses ran out. */
  datatype Page = Html(anchors: seq<Anchor>) | Http429Detected | NoResponse

  datatype Fetched = Fetched(page: Page, cookies: Option<Cookies>, sent: seq<Request>, rest: seq<Response>)

  const ConsentName := "CONSENT"
  const PendingPrefix := "PENDING+"
  const ConsentPrefix := "YES+shp.gws-20211108-0-RC1.fr+F+"

  predicate IsPendingConsent(jar: Cookies) {
    ConsentName in jar && StartsWith(jar[ConsentName], PendingPrefix)
  }

  /** The cookies kept after a response: a pending consent cookie is replaced
    * by a jar holding only an accepted consent carrying the same number;
    * otherwise the response's cookies are kept as they are. */
  function CookiesAfter(jar: Cookies): Cookies {
    if IsPendingConsent(jar) then
      assert '+' in jar[ConsentName] by {
        assert jar[ConsentName][|PendingPrefix| - 1] == '+';
      }
      map[ConsentName := ConsentPrefix + Split(jar[ConsentName], '+')[1]]
    else jar
  }

  /** A pending consent cookie "PENDING+<number>[+...]" is accepted with the same number. */
  lemma PendingConsentAccepted(jar: Cookies, number: string, more: string)
    requires '+' !in number
    requires ConsentName in jar && jar[ConsentName] == PendingPrefix + number + more
    requires more == [] || more[0] == '+'
    ensures CookiesAfter(jar) == map[ConsentName := ConsentPrefix + number]
  {
    var v := jar[ConsentName];
    PendingValue(v, number, more);
    SecondPiece(v, number, more);
  }

  lemma PendingValue(v: string, number: string, more: string)
    requires v == PendingPrefix + number + more
    ensures StartsWith(v, PendingPrefix)
    ensures v == "PENDING" + ['+'] + (number + more)
  {
    assert v[..|PendingPrefix|] == PendingPrefix;
  }

  lemma SecondPiece(v: string, number: string, more: string)
    requires '+' !in number
    requires v == "PENDING" + ['+'] + (number + more)
    requires more == [] || more[0] == '+'
    ensures |Split(v, '+')| >= 2 && Split(v, '+')[1] == number
  {
    SplitAtFirst(v, '+', "PENDING", number + more);
    FirstPiece(number, more);
  }

  lemma FirstPiece(number: string, more: string)
    requires '+' !in number
    requires more == [] || more[0] == '+'
    ensures Split(number + more, '+')[0] == number
  {
    if more == [] {
      WholePiece(number + more, number);
    } else {
      var tail := more[1..];
      assert more == ['+'] + tail;
      assert number + more == number + ['+'] + tail;
      PieceBeforeSep(number + more, number, tail);
    }
  }

  lemma WholePiece(s: string, number: string)
    requires '+' !in number && s == number
    ensures Split(s, '+') == [number]
  {
    assert Find(s, '+') < 0;
  }

  lemma PieceBeforeSep(s: string, number: string, tail: string)
    requires '+' !in number && s == number + ['+'] + tail
    ensures Split(s, '+')[0] == number
  {
    SplitAtFirst(s, '+', number, tail);
  }

  /** A cookie jar without a pending consent is kept unchanged. */
  lemma OtherCookiesKept(jar: Cookies)
    requires !IsPendingConsent(jar)
    ensures CookiesAfter(jar) == jar
  {
  }

  /** The rewrite is idempotent: an accepted consent is not pending. */
  lemma CookiesAfterIdempotent(jar: Cookies)
    ensures CookiesAfter(CookiesAfter(jar)) == CookiesAfter(jar)
  {
    if IsPendingConsent(jar) {
      var v := CookiesAfter(jar)[ConsentName];
      assert v[0] == 'Y';
      assert !StartsWith(v, PendingPrefix);
    }
  }

  /** get_page on a scripted network: 200 yields the body's anchors, 429
    * yields the sentinel or, when the client manages 429s, a retry of the
    * same URL, and any other status an empty page. */
  function Fetch(url: string, manages: bool, jar: Option<Cookies>, responses: seq<Response>): (r: Fetched)
    // one request per consumed response, all to `url`; the rest is what was not consumed
    ensures |r.sent| <= |responses| && r.rest == responses[|r.sent|..]
    ensures !r.page.NoResponse? ==> r.sent != []
    ensures forall i | 0 <= i < |r.sent| :: r.sent[i].url == url
    ensures r.page.NoResponse? <==> r.rest == [] && (responses == [] || (manages && responses[|responses| - 1].status == 429 && forall i | 0 <= i < |responses| :: responses[i].status == 429))
    // the sentinel comes back exactly when 429s are not managed and the first response is one
    ensures r.page.Http429Detected? <==> !manages && responses != [] && responses[0].status == 429
    // every request but the last was answered with a 429
    ensures forall i | 0 <= i < |r.sent| - 1 :: responses[i].status == 429
    decreases |responses|
  {
    if responses == [] then Fetched(NoResponse, jar, [], [])
    else
      var resp := responses[0];
      var req := Request(url, jar);
      var kept := Some(CookiesAfter(resp.cookies));
      if resp.status == 200 then Fetched(Html(resp.anchors), kept, [req], responses[1..])
      else if resp.status == 429 then
        if !manages then Fetched(Http429Detected, kept, [req], responses[1..])
        else
          var again := Fetch(url, manages, kept, responses[1..]);
          again.(sent := [req] + again.sent)
      else Fetched(Html([]), kept, [req], responses[1..])
  }

  /** The first request carries the caller's cookies, each later one the
    * cookies kept from the response before it. */
  lemma {:induction false} FetchSendsKeptCookies(url: string, manages: bool, jar: Option<Cookies>, responses: seq<Response>)
    ensures var r := Fetch(url, manages, jar, responses);
      (r.sent != [] ==> r.sent[0].cookies == jar) &&
      forall i | 1 <= i < |r.sent| :: r.sent[i].cookies == Some(CookiesAfter(responses[i - 1].cookies))
    decreases |responses|
  {
    if responses != [] && responses[0].status == 429 && manages {
      FetchSendsKeptCookies(url, manages, Some(CookiesAfter(responses[0].cookies)), responses[1..]);
    }
  }

  /** Unless the responses ran out, the page and the cookies kept come from
    * the last response consumed, which is not a 429 when an HTML page is
    * returned. */
  lemma {:induction false} FetchKeepsLastResponse(url: string, manages: bool, jar: Option<Cookies>, responses: seq<Response>)
    ensures var r := Fetch(url, manages, jar, responses);
      !r.page.NoResponse? ==>
        (r.sent != [] && r.cookies == Some(CookiesAfter(responses[|r.sent| - 1].cookies)) &&
         (r.page.Html? ==> var last := responses[|r.sent| - 1];
            last.status != 429 && r.page.anchors == (if last.status == 200 then last.anchors else [])))
    decreases |responses|
  {
    if responses != [] && responses[0].status == 429 && manages {
      FetchKeepsLastResponse(url, manages, Some(CookiesAfter(responses[0].cookies)), responses[1..]);
    }
  }

  /** After a 429 that set a pending consent cookie, the retry of a client
    * managing 429s sends back the accepted consent with the same number. */
  lemma RetryCarriesConsent(url: string, jar: Option<Cookies>, responses: seq<Response>, number: string)
    requires |responses| >= 2 && responses[0].status == 429
    requires '+' !in number
    requires ConsentName in responses[0].cookies && responses[0].cookies[ConsentName] == PendingPrefix + number
    ensures var r := Fetch(url, true, jar, responses);
      |r.sent| >= 2 && r.sent[1] == Request(url, Some(map[ConsentName := ConsentPrefix + number]))
  {
    var pending := responses[0].cookies;
    assert pending[ConsentName] == PendingPrefix + number + [];
    PendingConsentAccepted(pending, number, []);
    var again := Fetch(url, true, Some(CookiesAfter(pending)), responses[1..]);
    assert again.sent != [];
  }
}
