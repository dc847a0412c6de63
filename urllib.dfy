/**
 * The parts of Python's `urllib.parse` that the client calls: `quote_plus`
 * (on the query), `urlparse` (for the host and the query of a result link)
 * and `parse_qs` (to unwrap redirector links), plus the `key=value&...`
 * layout of a query string.
 */
module UrlLib {
  import opened Wrappers
  import opened Text

  predicate IsAsciiAlpha(c: char) { 'a' <= c <= 'z' || 'A' <= c <= 'Z' }

  predicate IsAscii(s: string) { forall i | 0 <= i < |s| :: s[i] as int < 0x80 }

  /** The characters `quote` never escapes: ASCII letters, digits and `_.-~`. */
  predicate IsAlwaysSafe(c: char) {
    IsAsciiAlpha(c) || IsDigit(c) || c == '_' || c == '.' || c == '-' || c == '~'
  }

  predicate IsHex(c: char) { IsDigit(c) || 'a' <= c <= 'f' || 'A' <= c <= 'F' }

  function HexValue(c: char): (v: int)
    requires IsHex(c)
    ensures 0 <= v < 16
  {
    if IsDigit(c) then DigitValue(c)
    else if 'a' <= c <= 'f' then c as int - 'a' as int + 10
    else c as int - 'A' as int + 10
  }

  /** An upper-case hexadecimal digit, as `quote` writes them. */
  function HexDigit(d: nat): (c: char)
    requires d < 16
    ensures IsHex(c) && IsAlwaysSafe(c) && HexValue(c) == d
  {
    if d < 10 then DigitChar(d) else (d - 10 + 'A' as int) as char
  }

  /** The UTF-8 encoding of one character. */
  function Utf8(c: char): (bytes: seq<nat>)
    ensures 1 <= |bytes| <= 4
    ensures forall k | 0 <= k < |bytes| :: bytes[k] < 256
    ensures |bytes| == 1 <==> c as int < 0x80
    ensures |bytes| == 1 ==> bytes[0] == c as int
    ensures |bytes| > 1 ==> 0xC0 <= bytes[0] && forall k | 1 <= k < |bytes| :: 0x80 <= bytes[k] < 0xC0
  {
    var n := c as int;
    if n < 0x80 then [n]
    else if n < 0x800 then [0xC0 + n / 0x40, 0x80 + n % 0x40]
    else if n < 0x10000 then [0xE0 + n / 0x1000, 0x80 + (n / 0x40) % 0x40, 0x80 + n % 0x40]
    else [0xF0 + n / 0x40000, 0x80 + (n / 0x1000) % 0x40, 0x80 + (n / 0x40) % 0x40, 0x80 + n % 0x40]
  }

  predicate IsQuoted(c: char) { IsAlwaysSafe(c) || c == '+' || c == '%' }

  /** `%XX` for every byte. */
  function PercentEncode(bytes: seq<nat>): (r: string)
    requires forall k | 0 <= k < |bytes| :: bytes[k] < 256
    ensures |r| == 3 * |bytes|
    ensures forall i | 0 <= i < |r| :: IsQuoted(r[i])
  {
    if bytes == [] then ""
    else ['%', HexDigit(bytes[0] / 16), HexDigit(bytes[0] % 16)] + PercentEncode(bytes[1..])
  }

  function QuoteChar(c: char): (r: string)
    ensures forall i | 0 <= i < |r| :: IsQuoted(r[i])
  {
    if c == ' ' then "+" else if IsAlwaysSafe(c) then [c] else PercentEncode(Utf8(c))
  }

  /**
   * `urllib.parse.quote_plus(s)`: spaces become `+`, the always-safe
   * characters stay, every other character becomes the `%XX` escapes of its
   * UTF-8 bytes. The result holds no `&`, `=`, `?`, `#` or space.
   */
  function QuotePlus(s: string): (r: string)
    ensures forall i | 0 <= i < |r| :: IsQuoted(r[i])
  {
    if s == [] then "" else QuoteChar(s[0]) + QuotePlus(s[1..])
  }

  /**
   * `urllib.parse.unquote_plus(s)`: `+` becomes a space and each valid `%XX`
   * escape becomes the character with that code; other characters stay.
   */
  function UnquotePlus(s: string): string
    decreases |s|
  {
    if s == [] then ""
    else if s[0] == '+' then " " + UnquotePlus(s[1..])
    else if s[0] == '%' && |s| >= 3 && IsHex(s[1]) && IsHex(s[2]) then
      [(HexValue(s[1]) * 16 + HexValue(s[2])) as char] + UnquotePlus(s[3..])
    else [s[0]] + UnquotePlus(s[1..])
  }

  lemma UnquoteQuotedChar(c: char, rest: string)
    requires c as int < 0x80
    ensures UnquotePlus(QuoteChar(c) + rest) == [c] + UnquotePlus(rest)
  {
    var s := QuoteChar(c) + rest;
    if c == ' ' {
      assert s[1..] == rest;
    } else if IsAlwaysSafe(c) {
      assert s[1..] == rest;
    } else {
      var n := c as int;
      assert QuoteChar(c) == ['%', HexDigit(n / 16), HexDigit(n % 16)];
      assert s[3..] == rest;
    }
  }

  /** Unquoting a quoted ASCII string gives it back. */
  lemma {:induction false} QuotePlusRoundTrip(s: string)
    requires IsAscii(s)
    ensures UnquotePlus(QuotePlus(s)) == s
  {
    if s != [] {
      UnquoteQuotedChar(s[0], QuotePlus(s[1..]));
      QuotePlusRoundTrip(s[1..]);
      assert s == [s[0]] + s[1..];
    }
  }

  /** The components `urlparse` returns (the `;params` of the path are not separated here). */
  datatype ParsedUrl = ParsedUrl(scheme: string, netloc: string, path: string, query: string, fragment: string)

  predicate IsSchemeChar(c: char) { IsAsciiAlpha(c) || IsDigit(c) || c == '+' || c == '-' || c == '.' }

  predicate IsAuthorityDelim(c: char) { c == '/' || c == '?' || c == '#' }

  /** The index where an authority that starts at `i` ends: the next `/`, `?` or `#`, or the end. */
  function AuthorityEnd(s: string, i: nat): (e: nat)
    requires i <= |s|
    ensures i <= e <= |s|
    ensures forall k | i <= k < e :: !IsAuthorityDelim(s[k])
    ensures e < |s| ==> IsAuthorityDelim(s[e])
    decreases |s| - i
  {
    if i == |s| || IsAuthorityDelim(s[i]) then i else AuthorityEnd(s, i + 1)
  }

  predicate HasScheme(url: string, colon: int) {
    0 < colon < |url| && IsAsciiAlpha(url[0]) && forall k | 0 <= k < colon :: IsSchemeChar(url[k])
  }

  /** The scheme (lower-cased) and what follows its `:`, or the default scheme and the whole URL. */
  function SplitScheme(url: string, defaultScheme: string): (string, string) {
    var colon := Find(url, ':');
    if HasScheme(url, colon) then (AsciiLower(url[..colon]), url[colon + 1..]) else (defaultScheme, url)
  }

  /** After a leading `//`, the netloc up to the next `/`, `?` or `#`, and what follows it. */
  function SplitNetloc(rest: string): (r: (string, string))
    ensures forall k | 0 <= k < |r.0| :: !IsAuthorityDelim(r.0[k])
    ensures !StartsWith(rest, "//") ==> r == ("", rest)
  {
    if StartsWith(rest, "//") then
      var end := AuthorityEnd(rest, 2);
      (rest[2..end], rest[end..])
    else ("", rest)
  }

  /**
   * `urllib.parse.urlparse(url, scheme=defaultScheme)`: `None` where it
   * raises `ValueError` (a netloc with only one of `[` and `]`).
   */
  function UrlParse(url: string, defaultScheme: string): (r: Option<ParsedUrl>)
    ensures r.Some? ==> forall k | 0 <= k < |r.value.netloc| :: !IsAuthorityDelim(r.value.netloc[k])
  {
    var (scheme, rest) := SplitScheme(url, defaultScheme);
    var (netloc, remainder) := SplitNetloc(rest);
    if ('[' in netloc) != (']' in netloc) then None
    else
      var hash := Find(remainder, '#');
      var beforeFragment := if hash >= 0 then remainder[..hash] else remainder;
      var fragment := if hash >= 0 then remainder[hash + 1..] else "";
      var mark := Find(beforeFragment, '?');
      var path := if mark >= 0 then beforeFragment[..mark] else beforeFragment;
      var query := if mark >= 0 then beforeFragment[mark + 1..] else "";
      Some(ParsedUrl(scheme, netloc, path, query, fragment))
  }

  predicate ValidScheme(scheme: string) {
    |scheme| > 0 && IsAsciiAlpha(scheme[0]) && forall k | 0 <= k < |scheme| :: IsSchemeChar(scheme[k])
  }

  lemma SplitSchemeOf(scheme: string, rest: string, defaultScheme: string)
    requires ValidScheme(scheme)
    ensures SplitScheme(scheme + ":" + rest, defaultScheme) == (AsciiLower(scheme), rest)
  {
    var url := scheme + ":" + rest;
    assert ':' !in scheme by {
      forall k | 0 <= k < |scheme| ensures scheme[k] != ':' { assert IsSchemeChar(scheme[k]); }
    }
    FindAfterPrefix(scheme, ':', rest);
    assert url == scheme + [':'] + rest;
    assert url[..|scheme|] == scheme;
    assert url[|scheme| + 1..] == rest;
    assert HasScheme(url, |scheme|);
  }

  lemma SplitNetlocOf(host: string, tail: string)
    requires forall k | 0 <= k < |host| :: !IsAuthorityDelim(host[k])
    requires tail == "" || IsAuthorityDelim(tail[0])
    ensures SplitNetloc("//" + host + tail) == (host, tail)
  {
    var rest := "//" + host + tail;
    assert StartsWith(rest, "//");
    assert forall k | 2 <= k < 2 + |host| :: rest[k] == host[k - 2];
    assert tail != "" ==> rest[2 + |host|] == tail[0];
    var end := AuthorityEnd(rest, 2);
    assert end == 2 + |host|;
    assert rest[2..end] == host;
    assert rest[end..] == tail;
  }

  /** The host written between `scheme://` and the first `/`, `?` or `#` is the netloc. */
  lemma NetlocOfAbsoluteUrl(scheme: string, host: string, tail: string, defaultScheme: string)
    requires ValidScheme(scheme)
    requires forall k | 0 <= k < |host| :: !IsAuthorityDelim(host[k])
    requires ('[' in host) == (']' in host)
    requires tail == "" || IsAuthorityDelim(tail[0])
    ensures var r := UrlParse(scheme + "://" + host + tail, defaultScheme);
      r.Some? && r.value.netloc == host && r.value.scheme == AsciiLower(scheme)
  {
    assert scheme + "://" + host + tail == scheme + ":" + ("//" + host + tail);
    SplitSchemeOf(scheme, "//" + host + tail, defaultScheme);
    SplitNetlocOf(host, tail);
  }

  /** `scheme://host` followed by `path?query` parses with `host` as the netloc and `query` as the query. */
  lemma AbsoluteUrlQuery(scheme: string, host: string, path: string, query: string, tail: string, defaultScheme: string)
    requires ValidScheme(scheme)
    requires forall k | 0 <= k < |host| :: !IsAuthorityDelim(host[k])
    requires ('[' in host) == (']' in host)
    requires |path| >= 1 && path[0] == '/' && '?' !in path && '#' !in path && '#' !in query
    requires tail == path + "?" + query
    ensures var r := UrlParse(scheme + "://" + host + tail, defaultScheme);
      r.Some? && r.value.netloc == host && r.value.query == query
  {
    assert scheme + "://" + host + tail == scheme + ":" + ("//" + host + tail);
    SplitSchemeOf(scheme, "//" + host + tail, defaultScheme);
    SplitNetlocOf(host, tail);
    FindAfterPrefix(path, '?', query);
    assert tail == path + ['?'] + query;
    assert '#' !in tail;
    assert tail[|path| + 1..] == query;
  }

  /** A link that starts with `/` but not `//` has no netloc; its query is what follows the first `?`. */
  lemma PathOnlyUrl(path: string, query: string, defaultScheme: string)
    requires |path| >= 1 && path[0] == '/' && (|path| < 2 || path[1] != '/')
    requires '?' !in path && '#' !in path && '#' !in query
    ensures var r := UrlParse(path + "?" + query, defaultScheme);
      r.Some? && r.value.netloc == "" && r.value.query == query
  {
    var url := path + "?" + query;
    assert !IsAsciiAlpha(url[0]);
    assert !StartsWith(url, "//") by { assert url[1] == (path + "?")[1]; }
    FindAfterPrefix(path, '?', query);
    assert url == path + ['?'] + query;
    assert url[|path| + 1..] == query;
  }

  /** `parse_qsl(query)`: pieces split on `&`; pieces without `=` or with an empty value dropped; names and values unquoted. */
  function ParseQsl(query: string): seq<(string, string)> {
    NameValuePairs(Split(query, '&'))
  }

  function NameValuePairs(pieces: seq<string>): seq<(string, string)> {
    if pieces == [] then []
    else
      var piece := pieces[0];
      var eq := Find(piece, '=');
      var tail := NameValuePairs(pieces[1..]);
      if eq < 0 || eq == |piece| - 1 then tail
      else [(UnquotePlus(piece[..eq]), UnquotePlus(piece[eq + 1..]))] + tail
  }

  /** `parse_qs(query)[name][0]`: the first value given for `name`; `None` where `parse_qs` has no such key. */
  function FirstValue(pairs: seq<(string, string)>, name: string): (r: Option<string>)
    ensures r.None? <==> forall k | 0 <= k < |pairs| :: pairs[k].0 != name
    ensures r.Some? ==> exists k | 0 <= k < |pairs| :: pairs[k] == (name, r.value) && forall j | 0 <= j < k :: pairs[j].0 != name
  {
    if pairs == [] then None
    else if pairs[0].0 == name then Some(pairs[0].1)
    else
      var r := FirstValue(pairs[1..], name);
      assert forall k | 1 <= k < |pairs| :: pairs[k] == pairs[1..][k - 1];
      assert r.Some? ==> exists k | 0 <= k < |pairs| :: pairs[k] == (name, r.value) && forall j | 0 <= j < k :: pairs[j].0 != name by {
        if r.Some? {
          var k :| 0 <= k < |pairs[1..]| && pairs[1..][k] == (name, r.value) && forall j | 0 <= j < k :: pairs[1..][j].0 != name;
          assert pairs[k + 1] == (name, r.value);
          assert forall j | 0 <= j < k + 1 :: pairs[j].0 != name by {
            forall j | 0 <= j < k + 1 ensures pairs[j].0 != name {
              if j > 0 { assert pairs[j] == pairs[1..][j - 1]; }
            }
          }
        }
      }
      r
  }

  /** A query string's `key=value` pieces exactly as sent: split on `&`, each at its first `=`. */
  function QueryParams(query: string): seq<(string, string)> {
    var pieces := Split(query, '&');
    seq(|pieces|, k requires 0 <= k < |pieces| => KeyValue(pieces[k]))
  }

  function KeyValue(piece: string): (string, string) {
    var eq := Find(piece, '=');
    if eq < 0 then (piece, "") else (piece[..eq], piece[eq + 1..])
  }

  function ParamPieces(ps: seq<(string, string)>): seq<string> {
    seq(|ps|, k requires 0 <= k < |ps| => ps[k].0 + "=" + ps[k].1)
  }

  /** `k1=v1&k2=v2&...`: the query string that carries `ps` in order. */
  function JoinParams(ps: seq<(string, string)>): string {
    Join(ParamPieces(ps), '&')
  }

  /** Neither a key nor a value splits the query; a key holds no `=`. */
  predicate PlainParams(ps: seq<(string, string)>) {
    forall k | 0 <= k < |ps| :: '&' !in ps[k].0 && '=' !in ps[k].0 && '&' !in ps[k].1
  }

  /** Reading a joined query string back gives exactly the parameters joined, in order. */
  lemma ParamsRoundTrip(ps: seq<(string, string)>)
    requires |ps| >= 1 && PlainParams(ps)
    ensures QueryParams(JoinParams(ps)) == ps
  {
    var pieces := ParamPieces(ps);
    SplitJoin(pieces, '&');
    forall k | 0 <= k < |ps| ensures KeyValue(pieces[k]) == ps[k] {
      FindAfterPrefix(ps[k].0, '=', ps[k].1);
      assert pieces[k] == ps[k].0 + ['='] + ps[k].1;
      assert pieces[k][..|ps[k].0|] == ps[k].0;
      assert pieces[k][|ps[k].0| + 1..] == ps[k].1;
    }
  }

  lemma {:induction false} JoinSnoc(parts: seq<string>, x: string, sep: char)
    requires |parts| >= 1
    ensures Join(parts + [x], sep) == Join(parts, sep) + [sep] + x
  {
    if |parts| > 1 {
      assert (parts + [x])[1..] == parts[1..] + [x];
      JoinSnoc(parts[1..], x, sep);
    }
  }

  /** Appending `&k=v` to a query string adds `(k, v)` as its last parameter. */
  lemma JoinParamsSnoc(ps: seq<(string, string)>, kv: (string, string))
    requires |ps| >= 1
    ensures JoinParams(ps) + "&" + kv.0 + "=" + kv.1 == JoinParams(ps + [kv])
  {
    assert ParamPieces(ps + [kv]) == ParamPieces(ps) + [kv.0 + "=" + kv.1];
    JoinSnoc(ParamPieces(ps), kv.0 + "=" + kv.1, '&');
  }
}
