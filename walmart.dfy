/** `WalmartRetailer`: the search URL, the product-page test and `filter_product_urls`, which
    turns the links a crawl reported into clean `/ip/` product URLs. */
module Walmart {
  import opened Wrappers
  import opened Text
  import opened Hrefs

  const SearchPrefix: string := "https://www.walmart.com/search?q="

  /** `build_search_url`: the query after `search?q=`, every space turned into `+`. */
  function BuildSearchUrl(query: string): (url: string)
    ensures |url| == |SearchPrefix| + |query| && url[..|SearchPrefix|] == SearchPrefix
    ensures forall i :: 0 <= i < |query| ==>
      url[|SearchPrefix| + i] == (if query[i] == ' ' then '+' else query[i])
    ensures ' ' !in url
  {
    SpeltCharwise(query, '+');
    SearchUrlOf(SearchPrefix, query, "+")
  }

  /** `is_product_page`: a walmart.com URL (in any case) with an `/ip/` path. */
  predicate IsProductPage(url: string) {
    Contains(ToLower(url), "walmart.com") && Contains(url, "/ip/")
  }

  /** One entry of the list a crawl reports: a link record (its `href` key may be missing),
      a plain string, or something else. */
  datatype Item = LinkRecord(href: Option<string>) | Text(s: string) | Other

  /** What `urlparse`, `parse_qs` and `unquote` make of a tracking URL: the decoded first
      `rd` parameter, no usable `rd` parameter, or an exception. */
  datatype Redirect = Target(url: string) | NoTarget | Failed

  /** The string an item contributes before resolution, or `None` when it is skipped. */
  function ItemUrl(item: Item): (r: Option<string>)
    ensures r.Some? ==> r.value != ""
    ensures item.LinkRecord? ==>
      (item.href.Some? && item.href.value != "" ==> r == item.href) && (item.href.None? ==> r.None?)
    ensures item.Text? ==> (r.Some? <==> item.s != "") && (r.Some? ==> r.value == item.s)
    ensures item.Other? ==> r.None?
  {
    match item
    case LinkRecord(h) => if h.Some? && h.value != "" then Some(h.value) else None
    case Text(s) => if s != "" then Some(s) else None
    case Other => None
  }

  /** A relative URL resolved against the base domain; other non-`http` URLs are dropped. */
  function Resolve(url: string, baseDomain: string): (r: Option<string>)
    ensures r.Some? ==> r.value == url || r.value == baseDomain + url
    ensures StartsWith(url, "/") ==> r == Some(baseDomain + url)
    ensures StartsWith(url, "http") ==> r == Some(url)
    ensures r.None? <==> !StartsWith(url, "/") && !StartsWith(url, "http")
  {
    if StartsWith(url, "/") then
      StartsWithOneOf(url, "/", "http");
      Some(baseDomain + url)
    else if StartsWith(url, "http") then Some(url)
    else None
  }

  predicate IsWalmartProduct(url: string) {
    Contains(url, "/ip/") && Contains(url, "walmart.com")
  }

  predicate IsTracking(url: string) {
    Contains(url, "/sp/track") && Contains(url, "rd=")
  }

  /** The product URL one resolved URL yields, before de-duplication: the decoded `rd`
      target of a tracking URL when it is a walmart `/ip/` URL, otherwise the URL itself
      when it is one; either cut at its query and fragment. */
  function Candidate(url: string, decode: string -> Redirect): (r: Option<string>)
    ensures r.Some? ==> '?' !in r.value && '#' !in r.value
    ensures !IsTracking(url) ==> (r.Some? <==> IsWalmartProduct(url))
  {
    if IsTracking(url) && decode(url).Failed? then None
    else if IsTracking(url) && decode(url).Target? && IsWalmartProduct(decode(url).url) then
      Some(StripQueryAndFragment(decode(url).url))
    else if IsWalmartProduct(url) then Some(StripQueryAndFragment(url))
    else None
  }

  /** The product URL one item yields, before de-duplication. */
  function ItemCandidate(item: Item, baseDomain: string, decode: string -> Redirect): (r: Option<string>)
    ensures r.Some? ==> '?' !in r.value && '#' !in r.value
    ensures r.Some? ==> ItemUrl(item).Some? && Resolve(ItemUrl(item).value, baseDomain).Some?
  {
    match ItemUrl(item)
    case None => None
    case Some(u) =>
      match Resolve(u, baseDomain)
      case None => None
      case Some(url) => Candidate(url, decode)
  }

  function Candidates(items: seq<Item>, baseDomain: string, decode: string -> Redirect): (r: seq<Option<string>>)
    ensures |r| == |items|
    ensures forall i :: 0 <= i < |items| ==> r[i] == ItemCandidate(items[i], baseDomain, decode)
  {
    seq(|items|, i requires 0 <= i < |items| => ItemCandidate(items[i], baseDomain, decode))
  }

  /** The number of URLs after which the loop stops: an append is followed by the test
      `len >= max_results`, so at least one URL is always taken. */
  function Cap(maxResults: int): (c: nat)
    ensures c >= 1 && c >= maxResults
  {
    if maxResults < 1 then 1 else maxResults
  }

  /** What `filter_product_urls` returns. */
  function FilteredUrls(items: seq<Item>, baseUrl: string, maxResults: int, decode: string -> Redirect): seq<string> {
    var all := FirstSeen(Present(Candidates(items, BaseDomain(baseUrl), decode)));
    SliceTo(all, Cap(maxResults))
  }

  /** `filter_product_urls`, with `urllib.parse` behind `decode`. */
  method FilterProductUrls(items: seq<Item>, baseUrl: string, maxResults: int, decode: string -> Redirect)
    returns (productUrls: seq<string>)
    ensures productUrls == FilteredUrls(items, baseUrl, maxResults, decode)
  {
    var baseDomain := BaseDomain(baseUrl);
    ghost var cands := Candidates(items, baseDomain, decode);
    var seen: set<string> := {};
    productUrls := [];
    var i := 0;
    while i < |items|
      invariant i <= |items|
      invariant productUrls == FirstSeen(Present(cands[..i]))
      invariant seen == set u | u in productUrls
      invariant |productUrls| < Cap(maxResults)
    {
      var c := ItemCandidate(items[i], baseDomain, decode);
      var stop;
      productUrls, seen, stop := Collect(cands, i, c, productUrls, seen, maxResults);
      if stop {
        return;
      }
      i := i + 1;
    }
    assert cands[..i] == cands;
  }

  /** One pass of the loop: the candidate `c` of item `i` is appended when it is new, and
      the loop stops when that append reaches `max_results`. */
  method Collect(ghost cands: seq<Option<string>>, i: nat, c: Option<string>, urls: seq<string>, seen: set<string>, maxResults: int)
    returns (urls': seq<string>, seen': set<string>, stop: bool)
    requires i < |cands| && cands[i] == c
    requires urls == FirstSeen(Present(cands[..i])) && seen == (set u | u in urls) && |urls| < Cap(maxResults)
    ensures stop ==> urls' == SliceTo(FirstSeen(Present(cands)), Cap(maxResults))
    ensures !stop ==> urls' == FirstSeen(Present(cands[..i + 1])) && seen' == (set u | u in urls') && |urls'| < Cap(maxResults)
  {
    PresentSnoc(cands, i);
    urls', seen', stop := urls, seen, false;
    if c.Some? {
      assert Present(cands[..i + 1]) == Present(cands[..i]) + [c.value];
      var isNew := c.value !in seen;
      urls', seen' := AppendUnseen(Present(cands[..i]), urls, seen, c.value);
      if isNew && |urls'| >= maxResults {
        StoppedEarly(cands, i + 1, urls', maxResults);
        stop := true;
      }
    } else {
      assert Present(cands[..i + 1]) == Present(cands[..i]);
    }
  }

  /** Stopping once `cap` URLs are collected returns the first `cap` URLs of the whole run. */
  lemma StoppedEarly(cands: seq<Option<string>>, n: nat, urls: seq<string>, maxResults: int)
    requires n <= |cands| && urls == FirstSeen(Present(cands[..n])) && |urls| == Cap(maxResults)
    ensures urls == SliceTo(FirstSeen(Present(cands)), Cap(maxResults))
  {
    var all := FirstSeen(Present(cands));
    assert urls <= all by {
      PresentPrefix(cands[..n], cands);
      FirstSeenPrefix(Present(cands[..n]), Present(cands));
    }
    SliceToPrefix(urls, all, Cap(maxResults));
  }

  // ---------------------------------------------------------------------------------
  // Properties of the filtered URLs

  /** The result has no repeats and no query or fragment, and it is the first
      `max(max_results, 1)` distinct product URLs of the whole list. */
  lemma FilteredProperties(items: seq<Item>, baseUrl: string, maxResults: int, decode: string -> Redirect)
    ensures forall i, j :: 0 <= i < j < |FilteredUrls(items, baseUrl, maxResults, decode)| ==>
      FilteredUrls(items, baseUrl, maxResults, decode)[i] != FilteredUrls(items, baseUrl, maxResults, decode)[j]
    ensures forall u :: u in FilteredUrls(items, baseUrl, maxResults, decode) ==> '?' !in u && '#' !in u
    ensures FilteredUrls(items, baseUrl, maxResults, decode) <= FirstSeen(Present(Candidates(items, BaseDomain(baseUrl), decode)))
    ensures |FilteredUrls(items, baseUrl, maxResults, decode)| <= Cap(maxResults)
  {
    var cands := Candidates(items, BaseDomain(baseUrl), decode);
    var all := FirstSeen(Present(cands));
    var r := FilteredUrls(items, baseUrl, maxResults, decode);
    forall i, j | 0 <= i < j < |r| ensures r[i] != r[j] {
      assert r[i] == all[i] && r[j] == all[j];
    }
    forall u | u in r ensures '?' !in u && '#' !in u {
      assert u in all;
      var k :| 0 <= k < |cands| && cands[k] == Some(u);
    }
  }

  /** A tracking URL whose decoded `rd` target is not a walmart `/ip/` URL is judged as a
      direct URL. */
  lemma TrackingFallsThrough(url: string, decode: string -> Redirect)
    requires IsTracking(url)
    requires decode(url).NoTarget? || (decode(url).Target? && !IsWalmartProduct(decode(url).url))
    ensures Candidate(url, decode).Some? <==> IsWalmartProduct(url)
    ensures Candidate(url, decode).Some? ==> Candidate(url, decode).value == StripQueryAndFragment(url)
  {
  }

  /** An absolute URL given as a string is judged as it stands. */
  lemma AbsoluteTextItem(url: string, baseDomain: string, decode: string -> Redirect)
    requires StartsWith(url, "http")
    ensures ItemCandidate(Text(url), baseDomain, decode) == Candidate(url, decode)
  {
    assert ItemUrl(Text(url)) == Some(url);
    assert Resolve(url, baseDomain) == Some(url) by {
      assert url[0] == 'h';
    }
  }

  /** An absolute walmart `/ip/` URL that is not a tracking URL is kept, cut at its
      query and fragment. */
  lemma DirectProductKept(url: string, baseDomain: string, decode: string -> Redirect)
    requires StartsWith(url, "http") && IsWalmartProduct(url) && !IsTracking(url)
    ensures ItemCandidate(Text(url), baseDomain, decode) == Some(StripQueryAndFragment(url))
  {
    AbsoluteTextItem(url, baseDomain, decode);
  }

  /** A relative URL given as a string is judged once resolved on the base domain. */
  lemma RelativeTextItem(path: string, baseDomain: string, decode: string -> Redirect)
    requires StartsWith(path, "/")
    ensures ItemCandidate(Text(path), baseDomain, decode) == Candidate(baseDomain + path, decode)
  {
    assert ItemUrl(Text(path)) == Some(path);
    assert Resolve(path, baseDomain) == Some(baseDomain + path);
  }

  /** A relative `/ip/` link is resolved on a walmart.com base domain and kept. */
  lemma RelativeProductLink(baseDomain: string, path: string, decode: string -> Redirect)
    requires StartsWith(path, "/ip/") && Contains(baseDomain, "walmart.com")
    requires !IsTracking(baseDomain + path)
    ensures ItemCandidate(Text(path), baseDomain, decode) == Some(StripQueryAndFragment(baseDomain + path))
  {
    var url := baseDomain + path;
    assert IsWalmartProduct(url) by {
      assert url[|baseDomain|..|baseDomain| + 4] == "/ip/";
      ContainsAt(url, "/ip/", |baseDomain|);
      ContainsConcat(baseDomain, path, "walmart.com");
    }
    assert StartsWith(path, "/") by {
      assert path[..1] == path[..4][..1];
    }
    RelativeTextItem(path, baseDomain, decode);
  }

  /** `page?query` with `/ip/` in the query is an absolute walmart `/ip/` URL. */
  lemma QueryMarkerUrl(page: string, query: string)
    requires StartsWith(page, "http") && Contains(page, "walmart.com") && Contains(query, "/ip/")
    ensures StartsWith(page + "?" + query, "http")
    ensures IsWalmartProduct(page + "?" + query)
  {
    var url := page + "?" + query;
    ContainsConcat(query, page + "?", "/ip/");
    assert url == page + ("?" + query);
    ContainsConcat(page, "?" + query, "walmart.com");
    assert url[..4] == page[..4];
  }

  /** The `/ip/` test looks at the whole URL, query included: a walmart.com page whose
      query alone holds `/ip/` is kept, cut to a URL that is not a product page. */
  lemma QueryMarkerKeepsNonProduct(page: string, query: string, baseDomain: string, decode: string -> Redirect)
    requires StartsWith(page, "http") && Contains(page, "walmart.com") && !Contains(page, "/ip/")
    requires '?' !in page && '#' !in page && Contains(query, "/ip/")
    requires !IsTracking(page + "?" + query)
    ensures ItemCandidate(Text(page + "?" + query), baseDomain, decode) == Some(page)
    ensures !IsProductPage(page)
  {
    QueryMarkerUrl(page, query);
    CutAtQuery(page, query);
    DirectProductKept(page + "?" + query, baseDomain, decode);
  }
}
