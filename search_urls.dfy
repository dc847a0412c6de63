/**
 * `update_urls` and the URL handling of `search`: which template a page
 * request uses, how `extra_params` are appended, and the check that no
 * extra parameter reuses a built-in name.
 */
module SearchUrls {
  import opened Wrappers
  import opened Text
  import opened UrlLib

  /** The client fields the URLs are built from; `query` is already `quote_plus`-encoded. */
  datatype UrlFields = UrlFields(
    tld: string,
    langHtmlUi: string,
    langResult: string,
    query: string,
    tbs: string,
    safe: string,
    start: int,
    num: int,
    country: string)

  /** The five URLs `update_urls` stores. */
  datatype Urls = Urls(home: string, search: string, nextPage: string, searchNum: string, nextPageNum: string)

  function SearchBase(tld: string): string {
    "https://www.google." + tld + "/search?"
  }

  /** The start every search template shares: the endpoint, the interface language, the result language and the query. */
  function TemplateHead(f: UrlFields): string {
    SearchBase(f.tld) + "hl=" + f.langHtmlUi + "&lr=" + f.langResult + "&q=" + f.query
  }

  /** The end every search template shares: the time filter, SafeSearch, the country and `filter=0`. */
  function TemplateTail(f: UrlFields): string {
    "&tbs=" + f.tbs + "&safe=" + f.safe + "&cr=" + f.country + "&filter=0"
  }

  /** `update_urls()`: the home page and the four search-page templates. */
  function BuildUrls(f: UrlFields): Urls {
    var start := IntToString(f.start);
    var num := IntToString(f.num);
    Urls(
      home := "https://www.google." + f.tld + "/",
      search := TemplateHead(f) + "&btnG=Google+Search" + TemplateTail(f),
      nextPage := TemplateHead(f) + "&start=" + start + TemplateTail(f),
      searchNum := TemplateHead(f) + "&num=" + num + "&btnG=Google+Search" + TemplateTail(f),
      nextPageNum := TemplateHead(f) + "&start=" + start + "&num=" + num + TemplateTail(f))
  }

  /**
   * The parameters a template carries, by rule: a continuation page names
   * its `start`, a page size other than 10 names its `num`, a first page
   * carries `btnG`, and every page ends with `tbs`, `safe`, `cr` and `filter=0`.
   */
  function TemplateParams(f: UrlFields, firstPage: bool, defaultNum: bool): seq<(string, string)> {
    [("hl", f.langHtmlUi), ("lr", f.langResult), ("q", f.query)]
    + (if firstPage then [] else [("start", IntToString(f.start))])
    + (if defaultNum then [] else [("num", IntToString(f.num))])
    + (if firstPage then [("btnG", "Google+Search")] else [])
    + [("tbs", f.tbs), ("safe", f.safe), ("cr", f.country), ("filter", "0")]
  }

  /** The template `search` requests: a zero `start` means a first page, `num == 10` the default page size. */
  function SelectUrl(urls: Urls, start: int, num: int): string {
    if start != 0 then
      if num == 10 then urls.nextPage else urls.nextPageNum
    else
      if num == 10 then urls.search else urls.searchNum
  }

  /** `&key=value` for one extra parameter, without encoding. */
  function ExtraParam(kv: (string, string)): string {
    "&" + kv.0 + "=" + kv.1
  }

  /** Every extra parameter appended in order. */
  function ExtraSuffix(extras: seq<(string, string)>): string {
    if extras == [] then "" else ExtraSuffix(extras[..|extras| - 1]) + ExtraParam(extras[|extras| - 1])
  }

  /** The URL of the page request `search` makes with these fields and extra parameters. */
  function PageUrl(f: UrlFields, extras: seq<(string, string)>): string {
    SelectUrl(BuildUrls(f), f.start, f.num) + ExtraSuffix(extras)
  }

  /** `url_parameters`: the names an extra parameter may not take, in the order they are checked. */
  const BuiltinParams: seq<string> := ["btnG", "cr", "hl", "num", "q", "safe", "start", "tbs", "lr"]

  function KeysOf(ps: seq<(string, string)>): (keys: seq<string>)
    ensures |keys| == |ps| && forall k | 0 <= k < |ps| :: keys[k] == ps[k].0
  {
    seq(|ps|, k requires 0 <= k < |ps| => ps[k].0)
  }

  /** The index of the first name in `names` that is also a key of `extras`, or `|names|` when there is none. */
  function CollisionIndex(names: seq<string>, extras: seq<(string, string)>): (i: nat)
    ensures i <= |names|
    ensures forall j | 0 <= j < i :: names[j] !in KeysOf(extras)
    ensures i < |names| ==> names[i] in KeysOf(extras)
  {
    if names == [] then 0
    else if names[0] in KeysOf(extras) then 0
    else 1 + CollisionIndex(names[1..], extras)
  }

  /** The built-in name `search` reports in its `ValueError`, if any extra key reuses one. */
  function FirstCollision(extras: seq<(string, string)>): Option<string> {
    var i := CollisionIndex(BuiltinParams, extras);
    if i < |BuiltinParams| then Some(BuiltinParams[i]) else None
  }

  /** `search` raises exactly when an extra key is a built-in name, and names the first one in list order. */
  lemma CollisionCheck(extras: seq<(string, string)>)
    ensures FirstCollision(extras).None? <==> forall k | 0 <= k < |extras| :: extras[k].0 !in BuiltinParams
    ensures FirstCollision(extras).Some? ==>
      var i := CollisionIndex(BuiltinParams, extras);
      && FirstCollision(extras).value == BuiltinParams[i] && BuiltinParams[i] in KeysOf(extras)
      && forall j | 0 <= j < i :: BuiltinParams[j] !in KeysOf(extras)
  {
    var keys := KeysOf(extras);
    if FirstCollision(extras).None? {
      forall k | 0 <= k < |extras| ensures extras[k].0 !in BuiltinParams {
        assert keys[k] == extras[k].0;
      }
    } else {
      var i := CollisionIndex(BuiltinParams, extras);
      var k :| 0 <= k < |keys| && keys[k] == BuiltinParams[i];
      assert extras[k].0 in BuiltinParams;
    }
  }

  lemma FirstParam(a: string, k: string, v: string, lit: string)
    requires lit == k + "="
    ensures a + lit + v == a + JoinParams([(k, v)])
  {
    assert ParamPieces([(k, v)]) == [k + "=" + v];
  }

  lemma NextParam(a: string, ps: seq<(string, string)>, k: string, v: string, lit: string)
    requires |ps| >= 1 && lit == "&" + k + "="
    ensures a + JoinParams(ps) + lit + v == a + JoinParams(ps + [(k, v)])
  {
    JoinParamsSnoc(ps, (k, v));
  }

  function HeadParams(f: UrlFields): seq<(string, string)> {
    [("hl", f.langHtmlUi), ("lr", f.langResult), ("q", f.query)]
  }

  function TailParams(f: UrlFields): seq<(string, string)> {
    [("tbs", f.tbs), ("safe", f.safe), ("cr", f.country), ("filter", "0")]
  }

  lemma HeadJoins(f: UrlFields)
    ensures TemplateHead(f) == SearchBase(f.tld) + JoinParams(HeadParams(f))
  {
    var a := SearchBase(f.tld);
    var p1 := [("hl", f.langHtmlUi)];
    FirstParam(a, "hl", f.langHtmlUi, "hl=");
    var p2 := p1 + [("lr", f.langResult)];
    NextParam(a, p1, "lr", f.langResult, "&lr=");
    NextParam(a, p2, "q", f.query, "&q=");
    assert p2 + [("q", f.query)] == HeadParams(f);
  }

  /** One more `&k=v` after a tail `t` that already completes the parameters `ps`. */
  lemma NextParamAfter(a: string, ps: seq<(string, string)>, x: string, t: string, k: string, v: string, lit: string, t': string)
    requires |ps| >= 1 && x + t == a + JoinParams(ps)
    requires lit == "&" + k + "=" && t' == t + lit + v
    ensures x + t' == a + JoinParams(ps + [(k, v)])
  {
    Regroup(x, t + lit, v, t');
    Regroup(x, t, lit, t + lit);
    NextParam(a, ps, k, v, lit);
  }

  lemma TailJoins(f: UrlFields, a: string, ps: seq<(string, string)>, x: string)
    requires |ps| >= 1 && x == a + JoinParams(ps)
    ensures x + TemplateTail(f) == a + JoinParams(ps + TailParams(f))
  {
    var t1 := "&tbs=" + f.tbs;
    var p1 := ps + [("tbs", f.tbs)];
    Regroup(x, "&tbs=", f.tbs, t1);
    NextParam(a, ps, "tbs", f.tbs, "&tbs=");
    var t2 := t1 + "&safe=" + f.safe;
    var p2 := p1 + [("safe", f.safe)];
    NextParamAfter(a, p1, x, t1, "safe", f.safe, "&safe=", t2);
    var t3 := t2 + "&cr=" + f.country;
    var p3 := p2 + [("cr", f.country)];
    NextParamAfter(a, p2, x, t2, "cr", f.country, "&cr=", t3);
    var t4 := t3 + "&filter=" + "0";
    NextParamAfter(a, p3, x, t3, "filter", "0", "&filter=", t4);
    assert TemplateTail(f) == t4 by {
      Regroup(t3, "&filter=", "0", "&filter=0");
    }
    assert p3 + [("filter", "0")] == ps + TailParams(f);
  }

  lemma ButtonJoins(a: string, ps: seq<(string, string)>, x: string)
    requires |ps| >= 1 && x == a + JoinParams(ps)
    ensures x + "&btnG=Google+Search" == a + JoinParams(ps + [("btnG", "Google+Search")])
  {
    NextParam(a, ps, "btnG", "Google+Search", "&btnG=");
  }

  /* Each stored template is the search endpoint followed by exactly the parameters `TemplateParams` lists. */

  lemma SearchTemplate(f: UrlFields)
    ensures BuildUrls(f).search == SearchBase(f.tld) + JoinParams(TemplateParams(f, true, true))
  {
    var a := SearchBase(f.tld);
    HeadJoins(f);
    var p := HeadParams(f) + [("btnG", "Google+Search")];
    ButtonJoins(a, HeadParams(f), TemplateHead(f));
    TailJoins(f, a, p, TemplateHead(f) + "&btnG=Google+Search");
    assert p + TailParams(f) == TemplateParams(f, true, true);
  }

  lemma NextPageTemplate(f: UrlFields)
    ensures BuildUrls(f).nextPage == SearchBase(f.tld) + JoinParams(TemplateParams(f, false, true))
  {
    var a := SearchBase(f.tld);
    var start := IntToString(f.start);
    HeadJoins(f);
    var p := HeadParams(f) + [("start", start)];
    NextParam(a, HeadParams(f), "start", start, "&start=");
    TailJoins(f, a, p, TemplateHead(f) + "&start=" + start);
    assert p + TailParams(f) == TemplateParams(f, false, true);
  }

  lemma SearchNumTemplate(f: UrlFields)
    ensures BuildUrls(f).searchNum == SearchBase(f.tld) + JoinParams(TemplateParams(f, true, false))
  {
    var a := SearchBase(f.tld);
    var num := IntToString(f.num);
    HeadJoins(f);
    var p1 := HeadParams(f) + [("num", num)];
    NextParam(a, HeadParams(f), "num", num, "&num=");
    var p2 := p1 + [("btnG", "Google+Search")];
    ButtonJoins(a, p1, TemplateHead(f) + "&num=" + num);
    TailJoins(f, a, p2, TemplateHead(f) + "&num=" + num + "&btnG=Google+Search");
    assert p2 + TailParams(f) == TemplateParams(f, true, false);
  }

  lemma NextPageNumTemplate(f: UrlFields)
    ensures BuildUrls(f).nextPageNum == SearchBase(f.tld) + JoinParams(TemplateParams(f, false, false))
  {
    var a := SearchBase(f.tld);
    var start := IntToString(f.start);
    var num := IntToString(f.num);
    HeadJoins(f);
    var p1 := HeadParams(f) + [("start", start)];
    NextParam(a, HeadParams(f), "start", start, "&start=");
    var p2 := p1 + [("num", num)];
    NextParam(a, p1, "num", num, "&num=");
    TailJoins(f, a, p2, TemplateHead(f) + "&start=" + start + "&num=" + num);
    assert p2 + TailParams(f) == TemplateParams(f, false, false);
  }

  lemma TemplatesCarryTheirParams(f: UrlFields)
    ensures SelectUrl(BuildUrls(f), f.start, f.num)
      == SearchBase(f.tld) + JoinParams(TemplateParams(f, f.start == 0, f.num == 10))
  {
    if f.start != 0 {
      if f.num == 10 { NextPageTemplate(f); } else { NextPageNumTemplate(f); }
    } else {
      if f.num == 10 { SearchTemplate(f); } else { SearchNumTemplate(f); }
    }
  }

  lemma AppendExtra(a: string, ps: seq<(string, string)>, y: string, kv: (string, string))
    requires |ps| >= 1 && y == a + JoinParams(ps)
    ensures y + ExtraParam(kv) == a + JoinParams(ps + [kv])
  {
    JoinParamsSnoc(ps, kv);
  }

  lemma Regroup(x: string, u: string, v: string, w: string)
    requires w == u + v
    ensures x + w == x + u + v
  {
  }

  lemma {:induction false} ExtraSuffixJoins(a: string, ps: seq<(string, string)>, extras: seq<(string, string)>)
    requires |ps| >= 1
    ensures a + JoinParams(ps) + ExtraSuffix(extras) == a + JoinParams(ps + extras)
  {
    if extras == [] {
      assert ps + extras == ps;
    } else {
      var init, last := extras[..|extras| - 1], extras[|extras| - 1];
      var x := a + JoinParams(ps);
      ExtraSuffixJoins(a, ps, init);
      Regroup(x, ExtraSuffix(init), ExtraParam(last), ExtraSuffix(extras));
      AppendExtra(a, ps + init, x + ExtraSuffix(init), last);
      assert ps + init + [last] == ps + extras;
    }
  }

  /** None of the field values can break the query string apart. */
  predicate WellFormedFields(f: UrlFields) {
    && '&' !in f.langHtmlUi && '&' !in f.langResult && '&' !in f.query
    && '&' !in f.tbs && '&' !in f.safe && '&' !in f.country
  }

  lemma IntToStringPlain(i: int)
    ensures '&' !in IntToString(i)
  {
    var digits := NatToString(if i < 0 then -i else i);
    DigitsAvoid(digits, '&');
  }

  lemma TemplateParamsPlain(f: UrlFields, firstPage: bool, defaultNum: bool)
    requires WellFormedFields(f)
    ensures PlainParams(TemplateParams(f, firstPage, defaultNum))
  {
    IntToStringPlain(f.start);
    IntToStringPlain(f.num);
  }

  /**
   * A page request goes to the search endpoint with the selected template's
   * parameters followed by the extra parameters, and reading that query
   * string back gives exactly those parameters, in that order.
   */
  lemma PageUrlParams(f: UrlFields, extras: seq<(string, string)>)
    requires WellFormedFields(f) && PlainParams(extras)
    ensures var ps := TemplateParams(f, f.start == 0, f.num == 10) + extras;
      PageUrl(f, extras) == SearchBase(f.tld) + JoinParams(ps) && QueryParams(JoinParams(ps)) == ps
  {
    var template := TemplateParams(f, f.start == 0, f.num == 10);
    TemplatesCarryTheirParams(f);
    ExtraSuffixJoins(SearchBase(f.tld), template, extras);
    TemplateParamsPlain(f, f.start == 0, f.num == 10);
    ParamsRoundTrip(template + extras);
  }

  /** The names a template carries, in order. */
  function TemplateKeyList(firstPage: bool, defaultNum: bool): seq<string> {
    ["hl", "lr", "q"] + (if firstPage then [] else ["start"]) + (if defaultNum then [] else ["num"])
    + (if firstPage then ["btnG"] else []) + ["tbs", "safe", "cr", "filter"]
  }

  lemma TemplateKeys(f: UrlFields, firstPage: bool, defaultNum: bool)
    ensures KeysOf(TemplateParams(f, firstPage, defaultNum)) == TemplateKeyList(firstPage, defaultNum)
  {
  }

  lemma TemplateKeysDistinct(firstPage: bool, defaultNum: bool)
    ensures var keys := TemplateKeyList(firstPage, defaultNum);
      forall i, j | 0 <= i < j < |keys| :: keys[i] != keys[j]
  {
    if firstPage {
      if defaultNum {
        assert TemplateKeyList(firstPage, defaultNum) == ["hl", "lr", "q", "btnG", "tbs", "safe", "cr", "filter"];
      } else {
        assert TemplateKeyList(firstPage, defaultNum) == ["hl", "lr", "q", "num", "btnG", "tbs", "safe", "cr", "filter"];
      }
    } else {
      if defaultNum {
        assert TemplateKeyList(firstPage, defaultNum) == ["hl", "lr", "q", "start", "tbs", "safe", "cr", "filter"];
      } else {
        assert TemplateKeyList(firstPage, defaultNum) == ["hl", "lr", "q", "start", "num", "tbs", "safe", "cr", "filter"];
      }
    }
  }

  lemma KeysOfAppend(a: seq<(string, string)>, b: seq<(string, string)>)
    ensures KeysOf(a + b) == KeysOf(a) + KeysOf(b)
  {
  }

  /** A name that is not an extra key is sent exactly when the template carries it. */
  lemma KeyFromTemplate(tk: seq<string>, ek: seq<string>, name: string)
    requires name !in ek
    ensures name in tk + ek <==> name in tk
  {
    if name in tk + ek {
      var k :| 0 <= k < |tk + ek| && (tk + ek)[k] == name;
      if k >= |tk| {
        assert ek[k - |tk|] == name;
      }
    }
  }

  /**
   * When no extra key is a built-in name: `start` is sent exactly on a
   * continuation page, `num` exactly for a page size other than 10, and
   * `btnG` exactly on a first page.
   */
  lemma PageUrlKeys(f: UrlFields, extras: seq<(string, string)>)
    requires FirstCollision(extras).None?
    ensures var keys := KeysOf(TemplateParams(f, f.start == 0, f.num == 10) + extras);
      && ("start" in keys <==> f.start != 0)
      && ("num" in keys <==> f.num != 10)
      && ("btnG" in keys <==> f.start == 0)
  {
    var template := TemplateParams(f, f.start == 0, f.num == 10);
    var tk, ek := KeysOf(template), KeysOf(extras);
    TemplateKeys(f, f.start == 0, f.num == 10);
    TemplateKeyPresence(f.start == 0, f.num == 10, tk);
    KeysOfAppend(template, extras);
    assert "start" !in ek && "num" !in ek && "btnG" !in ek by {
      CollisionCheck(extras);
    }
    KeyFromTemplate(tk, ek, "start");
    KeyFromTemplate(tk, ek, "num");
    KeyFromTemplate(tk, ek, "btnG");
  }

  lemma TemplateKeyPresence(firstPage: bool, defaultNum: bool, keys: seq<string>)
    requires keys == TemplateKeyList(firstPage, defaultNum)
    ensures ("start" in keys <==> !firstPage) && ("num" in keys <==> !defaultNum) && ("btnG" in keys <==> firstPage)
  {
  }

  /** When no extra key is a built-in name, no built-in name is sent twice. */
  lemma BuiltinKeysUnique(f: UrlFields, extras: seq<(string, string)>)
    requires FirstCollision(extras).None?
    ensures var keys := KeysOf(TemplateParams(f, f.start == 0, f.num == 10) + extras);
      forall i, j | 0 <= i < j < |keys| && keys[i] == keys[j] :: keys[i] !in BuiltinParams
  {
    var template := TemplateParams(f, f.start == 0, f.num == 10);
    TemplateKeys(f, f.start == 0, f.num == 10);
    TemplateKeysDistinct(f.start == 0, f.num == 10);
    KeysOfAppend(template, extras);
    var tk, ek := KeysOf(template), KeysOf(extras);
    assert forall k | 0 <= k < |ek| :: ek[k] !in BuiltinParams by {
      CollisionCheck(extras);
    }
    var keys := tk + ek;
    forall i, j | 0 <= i < j < |keys| && keys[i] == keys[j] ensures keys[i] !in BuiltinParams {
      if j >= |tk| {
        assert keys[j] == ek[j - |tk|];
      }
    }
  }

  /** `filter` is not a built-in name: an extra `filter` passes the check and the request then carries `filter` twice. */
  lemma ExtraFilterIsRepeated(f: UrlFields)
    ensures FirstCollision([("filter", "0")]).None?
    ensures var keys := KeysOf(TemplateParams(f, f.start == 0, f.num == 10) + [("filter", "0")]);
      keys[|keys| - 2] == keys[|keys| - 1] == "filter"
  {
    CollisionCheck([("filter", "0")]);
  }
}
