/**
 * `filter_search_result_urls`: which `href` of a result page is kept as a
 * search result. A Google redirector link is first unwrapped to the URL in
 * its `q` (or else `url`) parameter; the link is then kept only when it has
 * a host and the host does not mention `google`.
 */
module LinkFilter {
  import opened Wrappers
  import opened Text
  import opened UrlLib

  /** The two spellings of Google's redirector the client unwraps. */
  predicate IsRedirector(link: string) {
    StartsWith(link, "/url?") || StartsWith(link, "http://www.google.com/url?")
  }

  /**
   * `parse_qs(urlparse(link).query)["q"][0]`, or else the same for `"url"`;
   * `None` where both keys are missing or `urlparse` raises.
   */
  function RedirectTarget(link: string): Option<string> {
    match UrlParse(link, "http")
    case None => None
    case Some(u) => TargetIn(ParseQsl(u.query))
  }

  /** The first `q` value of the query, or else the first `url` value. */
  function TargetIn(pairs: seq<(string, string)>): Option<string> {
    match FirstValue(pairs, "q")
    case Some(q) => Some(q)
    case None => FirstValue(pairs, "url")
  }

  /** A host a search result may have: present, and without `google` in any letter case. */
  predicate IsResultHost(netloc: string) {
    netloc != "" && !Contains(AsciiLower(netloc), "google")
  }

  /** The check applied to the (unwrapped) link: it must parse and name a result host. */
  function AcceptTarget(target: string): Option<string> {
    match UrlParse(target, "http")
    case None => None
    case Some(u) => if IsResultHost(u.netloc) then Some(target) else None
  }

  /** `filter_search_result_urls(link)`: the result URL the link yields, or `None`. */
  function FilterSearchResultUrl(link: string): Option<string> {
    if IsRedirector(link) then
      match RedirectTarget(link)
      case None => None
      case Some(target) => AcceptTarget(target)
    else AcceptTarget(link)
  }

  /**
   * What the filter keeps parses with a host that does not mention `google`,
   * and is the link itself or, for a redirector, the URL it carries.
   */
  lemma FilterSound(link: string)
    ensures var r := FilterSearchResultUrl(link);
      r.Some? ==>
        && UrlParse(r.value, "http").Some?
        && IsResultHost(UrlParse(r.value, "http").value.netloc)
        && (if IsRedirector(link) then RedirectTarget(link) == r else r.value == link)
  {
  }

  /** A link that is not a redirector is kept, unchanged, exactly when it parses with a result host. */
  lemma DirectLink(link: string)
    requires !IsRedirector(link)
    ensures FilterSearchResultUrl(link).Some? <==>
      UrlParse(link, "http").Some? && IsResultHost(UrlParse(link, "http").value.netloc)
    ensures FilterSearchResultUrl(link).Some? ==> FilterSearchResultUrl(link).value == link
  {
  }

  /** `/url?...` has no host. */
  lemma RelativeRedirectorHasNoHost(link: string)
    requires StartsWith(link, "/url?")
    ensures AcceptTarget(link) == None
  {
    assert link[0] == '/' && link[1] == 'u' by { assert link[..5] == "/url?"; }
    assert !HasScheme(link, Find(link, ':'));
    assert !StartsWith(link, "//");
    assert SplitNetloc(link) == ("", link);
  }

  lemma GoogleIsNoResultHost()
    ensures !IsResultHost("www.google.com")
  {
    var lowered := AsciiLower("www.google.com");
    assert lowered[4..10] == "google";
    assert OccursAt(lowered, "google", 4);
  }

  /** The host test ignores ASCII letter case: hosts that differ only in the case of their letters are both results or both not. */
  lemma HostTestIgnoresCase(h: string, h': string)
    requires |h| == |h'| && forall i | 0 <= i < |h| :: LowerChar(h[i]) == LowerChar(h'[i])
    ensures IsResultHost(h) == IsResultHost(h')
  {
    assert AsciiLower(h) == AsciiLower(h');
  }

  /** A host that spells `google` in any mix of ASCII letter cases is no result host. */
  lemma AnyCaseGoogleRejected(host: string, i: nat)
    requires i + 6 <= |host| && AsciiLower(host[i..i + 6]) == "google"
    ensures !IsResultHost(host)
  {
    var lowered := AsciiLower(host);
    assert lowered[i..i + 6] == AsciiLower(host[i..i + 6]);
    assert OccursAt(lowered, "google", i);
  }

  /** A direct link whose host spells `google` in any letter case is dropped. */
  lemma AnyCaseGoogleLinkDropped(scheme: string, host: string, tail: string, i: nat)
    requires ValidScheme(scheme)
    requires forall k | 0 <= k < |host| :: !IsAuthorityDelim(host[k])
    requires ('[' in host) == (']' in host)
    requires tail == "" || IsAuthorityDelim(tail[0])
    requires !IsRedirector(scheme + "://" + host + tail)
    requires i + 6 <= |host| && AsciiLower(host[i..i + 6]) == "google"
    ensures FilterSearchResultUrl(scheme + "://" + host + tail) == None
  {
    AnyCaseGoogleRejected(host, i);
    AbsoluteUrl(scheme, host, tail);
    DirectLink(scheme + "://" + host + tail);
  }

  lemma GoogleHostRejected(url: string, tail: string)
    requires tail != "" && tail[0] == '/'
    requires url == "http" + "://" + "www.google.com" + tail
    ensures AcceptTarget(url) == None
  {
    NetlocOfAbsoluteUrl("http", "www.google.com", tail, "http");
    GoogleIsNoResultHost();
    var u := UrlParse(url, "http").value;
    assert !IsResultHost(u.netloc);
  }

  /** `http://www.google.com/url?...` has Google's host. */
  lemma AbsoluteRedirectorIsGoogle(link: string)
    requires StartsWith(link, "http://www.google.com/url?")
    ensures AcceptTarget(link) == None
  {
    var tail := link[21..];
    assert link[..26] == "http://www.google.com/url?";
    assert link[..21] == "http://www.google.com" by { assert link[..21] == link[..26][..21]; }
    assert tail[0] == '/' by { assert tail[0] == link[..26][21]; }
    assert link == "http" + "://" + "www.google.com" + tail by { assert link == link[..21] + tail; }
    GoogleHostRejected(link, tail);
  }

  /** A redirector link itself never names a result host. */
  lemma RedirectorIsNoResult(link: string)
    requires IsRedirector(link)
    ensures AcceptTarget(link) == None
  {
    if StartsWith(link, "/url?") {
      RelativeRedirectorHasNoHost(link);
    } else {
      AbsoluteRedirectorIsGoogle(link);
    }
  }

  /** Filtering a kept URL again keeps it unchanged. */
  lemma FilterIdempotent(link: string)
    requires FilterSearchResultUrl(link).Some?
    ensures var r := FilterSearchResultUrl(link).value; FilterSearchResultUrl(r) == Some(r)
  {
    var r := FilterSearchResultUrl(link).value;
    FilterSound(link);
    if IsRedirector(r) {
      RedirectorIsNoResult(r);
      assert false;
    }
    DirectLink(r);
  }

  /**
   * An absolute URL that is not a redirector is kept exactly when its host
   * is non-empty and does not contain `google` in any letter case.
   */
  lemma AbsoluteUrl(scheme: string, host: string, tail: string)
    requires ValidScheme(scheme)
    requires forall k | 0 <= k < |host| :: !IsAuthorityDelim(host[k])
    requires ('[' in host) == (']' in host)
    requires tail == "" || IsAuthorityDelim(tail[0])
    requires !IsRedirector(scheme + "://" + host + tail)
    ensures FilterSearchResultUrl(scheme + "://" + host + tail) == Some(scheme + "://" + host + tail)
      <==> host != "" && !Contains(AsciiLower(host), "google")
  {
    NetlocOfAbsoluteUrl(scheme, host, tail, "http");
  }

  lemma QuotedHasNo(s: string, c: char)
    requires !IsQuoted(c)
    ensures c !in QuotePlus(s)
  {
  }

  lemma QuotedPrefixHasNo(prefix: string, s: string, quoted: string, c: char)
    requires !IsQuoted(c) && c !in prefix && quoted == prefix + QuotePlus(s)
    ensures c !in quoted
  {
    QuotedHasNo(s, c);
  }

  lemma QuotedNonEmpty(s: string)
    requires s != ""
    ensures QuotePlus(s) != ""
  {
    assert |QuoteChar(s[0])| >= 1;
  }

  lemma {:induction false} UnquotePlain(s: string)
    requires forall k | 0 <= k < |s| :: IsAlwaysSafe(s[k])
    ensures UnquotePlus(s) == s
  {
    if s != [] {
      UnquotePlain(s[1..]);
      assert s == [s[0]] + s[1..];
    }
  }

  /** A query of one `name=value` piece whose value is a quoted ASCII target decodes to that one pair. */
  lemma TargetPiece(name: string, prefix: string, target: string, piece: string)
    requires name == "q" || name == "url"
    requires prefix == name + "="
    requires target != "" && IsAscii(target)
    requires piece == prefix + QuotePlus(target)
    ensures ParseQsl(piece) == [(name, target)]
  {
    var quoted := QuotePlus(target);
    assert piece == name + "=" + quoted;
    QuotedNonEmpty(target);
    QuotePlusRoundTrip(target);
    QuotedHasNo(target, '&');
    var pieces: seq<string> := [piece];
    assert Split(piece, '&') == pieces by { assert Find(piece, '&') < 0; }
    assert '=' !in name;
    FindAfterPrefix(name, '=', quoted);
    assert piece == name + ['='] + quoted;
    var eq := Find(piece, '=');
    assert eq == |name| < |piece| - 1;
    assert piece[..eq] == name;
    assert piece[eq + 1..] == quoted;
    UnquotePlain(name);
    assert pieces[1..] == [];
    assert NameValuePairs(pieces) == [(UnquotePlus(name), UnquotePlus(quoted))] + NameValuePairs([]);
  }

  /** A relative redirector `/url?query` is unwrapped to the target its query names. */
  lemma RedirectorQuery(query: string)
    requires '#' !in query
    ensures FilterSearchResultUrl("/url?" + query)
      == match TargetIn(ParseQsl(query)) case None => None case Some(t) => AcceptTarget(t)
  {
    var link := "/url?" + query;
    PathOnlyUrl("/url", query, "http");
    assert link == "/url" + "?" + query;
    assert IsRedirector(link) by {
      assert link[..5] == "/url?";
    }
    assert RedirectTarget(link) == TargetIn(ParseQsl(query));
  }

  /** The absolute redirector `http://www.google.com/url?query` is unwrapped just like the relative one. */
  lemma AbsoluteRedirectorQuery(query: string)
    requires '#' !in query
    ensures FilterSearchResultUrl("http://www.google.com/url?" + query)
      == match TargetIn(ParseQsl(query)) case None => None case Some(t) => AcceptTarget(t)
  {
    var link := "http://www.google.com/url?" + query;
    var tail := link[21..];
    assert link[..26] == "http://www.google.com/url?";
    assert link[..21] == "http://www.google.com" by { assert link[..21] == link[..26][..21]; }
    assert tail == "/url" + "?" + query by {
      assert tail[..5] == link[..26][21..] == "/url?";
      assert tail == tail[..5] + query;
    }
    assert link == "http" + "://" + "www.google.com" + tail by { assert link == link[..21] + tail; }
    AbsoluteUrlQuery("http", "www.google.com", "/url", query, tail, "http");
    assert IsRedirector(link);
    assert RedirectTarget(link) == TargetIn(ParseQsl(query));
  }

  /** Both spellings of the redirector carry the same target for the same query. */
  lemma RedirectorSpellingsAgree(query: string)
    requires '#' !in query
    ensures FilterSearchResultUrl("http://www.google.com/url?" + query) == FilterSearchResultUrl("/url?" + query)
  {
    AbsoluteRedirectorQuery(query);
    RedirectorQuery(query);
  }

  /** `/url?q=<quoted target>` yields whatever the target itself yields. */
  lemma RedirectorQ(target: string)
    requires target != "" && IsAscii(target)
    ensures FilterSearchResultUrl("/url?" + ("q=" + QuotePlus(target))) == AcceptTarget(target)
  {
    var query := "q=" + QuotePlus(target);
    OnlyQ(target, query);
    RedirectorQuery(query);
  }

  lemma OnlyQ(target: string, query: string)
    requires target != "" && IsAscii(target)
    requires query == "q=" + QuotePlus(target)
    ensures '#' !in query && TargetIn(ParseQsl(query)) == Some(target)
  {
    QuotedHasNo(target, '#');
    TargetPiece("q", "q=", target, query);
    var ps := ParseQsl(query);
    assert ps[0].0 == "q";
  }

  /** Without a `q` parameter the `url` parameter is used. */
  lemma RedirectorUrl(target: string)
    requires target != "" && IsAscii(target)
    ensures FilterSearchResultUrl("/url?" + ("url=" + QuotePlus(target))) == AcceptTarget(target)
  {
    var query := "url=" + QuotePlus(target);
    OnlyUrl(target, query);
    RedirectorQuery(query);
  }

  lemma OnlyUrl(target: string, query: string)
    requires target != "" && IsAscii(target)
    requires query == "url=" + QuotePlus(target)
    ensures '#' !in query && TargetIn(ParseQsl(query)) == Some(target)
  {
    QuotedHasNo(target, '#');
    TargetPiece("url", "url=", target, query);
    var ps := ParseQsl(query);
    assert FirstValue(ps, "q") == None by { assert ps[0].0 == "url" != "q"; }
    assert FirstValue(ps, "url") == Some(target) by { assert ps[0].0 == "url"; }
  }

  lemma SplitAfterFirst(a: string, b: string)
    requires '&' !in a
    ensures Split(a + "&" + b, '&') == [a] + Split(b, '&')
  {
    var s := a + "&" + b;
    FindAfterPrefix(a, '&', b);
    assert s == a + ['&'] + b;
    assert s[..|a|] == a;
    assert s[|a| + 1..] == b;
  }

  lemma PairsOfFirst(a: string, rest: seq<string>)
    ensures NameValuePairs([a] + rest) == NameValuePairs([a]) + NameValuePairs(rest)
  {
    var pieces := [a] + rest;
    assert pieces[1..] == rest;
    var single: seq<string> := [a];
    assert single[1..] == [];
  }

  lemma ParseQslAppend(a: string, b: string, query: string, pa: seq<(string, string)>, pb: seq<(string, string)>)
    requires '&' !in a && query == a + "&" + b
    requires ParseQsl(a) == pa && ParseQsl(b) == pb
    ensures ParseQsl(query) == pa + pb
  {
    SplitAfterFirst(a, b);
    assert Split(a, '&') == [a] by { assert Find(a, '&') < 0; }
    PairsOfFirst(a, Split(b, '&'));
  }

  /** `q` wins over `url` even when `url` comes first. */
  lemma RedirectorPrefersQ(other: string, target: string)
    requires other != "" && IsAscii(other) && target != "" && IsAscii(target)
    ensures FilterSearchResultUrl("/url?" + (("url=" + QuotePlus(other)) + "&" + ("q=" + QuotePlus(target))))
      == AcceptTarget(target)
  {
    var query := ("url=" + QuotePlus(other)) + "&" + ("q=" + QuotePlus(target));
    UrlThenQ(other, target, query);
    RedirectorQuery(query);
  }

  /** The query `url=<quoted other>&q=<quoted target>` names `target`. */
  lemma UrlThenQ(other: string, target: string, query: string)
    requires other != "" && IsAscii(other) && target != "" && IsAscii(target)
    requires query == ("url=" + QuotePlus(other)) + "&" + ("q=" + QuotePlus(target))
    ensures '#' !in query && TargetIn(ParseQsl(query)) == Some(target)
  {
    QuotedHasNo(other, '#');
    QuotedHasNo(target, '#');
    var first, second := "url=" + QuotePlus(other), "q=" + QuotePlus(target);
    UrlThenQPairs(other, target, first, second, query);
    var ps := ParseQsl(query);
    assert ps[0].0 == "url" != "q";
    assert ps[1..] == [("q", target)];
    assert FirstValue(ps[1..], "q") == Some(target);
    assert FirstValue(ps, "q") == Some(target);
    assert '#' !in first && '#' !in second;
  }

  lemma UrlThenQPairs(other: string, target: string, first: string, second: string, query: string)
    requires other != "" && IsAscii(other) && target != "" && IsAscii(target)
    requires first == "url=" + QuotePlus(other) && second == "q=" + QuotePlus(target)
    requires query == first + "&" + second
    ensures ParseQsl(query) == [("url", other), ("q", target)]
  {
    QuotedPrefixHasNo("url=", other, first, '&');
    TargetPiece("url", "url=", other, first);
    TargetPiece("q", "q=", target, second);
    ParseQslAppend(first, second, query, [("url", other)], [("q", target)]);
  }

  /** A redirector whose query has neither a `q` nor a `url` value yields nothing. */
  lemma RedirectorWithoutTarget(query: string)
    requires '#' !in query
    requires forall k | 0 <= k < |ParseQsl(query)| :: ParseQsl(query)[k].0 != "q" && ParseQsl(query)[k].0 != "url"
    ensures FilterSearchResultUrl("/url?" + query) == None
  {
    RedirectorQuery(query);
  }
}
