/** `HomeDepotRetailer`: the search URL, the product-page test and the `/p/` links read off
    a search page. */
module HomeDepot {
  import opened Wrappers
  import opened Text
  import opened Hrefs

  const SearchPrefix: string := "https://www.homedepot.com/s/"

  /** `build_search_url`: the query as a path segment, every space turned into `%20`. */
  function BuildSearchUrl(query: string): (url: string)
    ensures StartsWith(url, SearchPrefix)
    ensures url[|SearchPrefix|..] == SpacesSpelt(query, "%20")
    ensures ' ' !in url
  {
    SearchUrlOf(SearchPrefix, query, "%20")
  }

  /** A query without `%` is read back from the search path by decoding `%20`. */
  lemma SearchPathDecodes(query: string)
    requires '%' !in query
    ensures ReplaceAll(BuildSearchUrl(query)[|SearchPrefix|..], "%20", " ") == query
  {
    SearchTermRoundTrip(SearchPrefix, query, "%20");
  }

  /** A query without spaces is put in the path as it is. */
  lemma SearchUrlWithoutSpaces(query: string)
    requires ' ' !in query
    ensures BuildSearchUrl(query) == SearchPrefix + query
  {
    ContainsChar(query, ' ');
    ReplaceAllAbsent(query, " ", "%20");
    ReplaceBlank(query, "%20");
    var url := BuildSearchUrl(query);
    assert url == url[..|SearchPrefix|] + url[|SearchPrefix|..];
  }

  /** `is_product_page`: a homedepot.com URL (in any case) with a `/p/` path. */
  predicate IsProductPage(url: string) {
    Contains(ToLower(url), "homedepot.com") && Contains(url, "/p/")
  }

  /** The URL one link contributes before de-duplication: a relative `/p/` link is put on
      the base domain, a link holding `homedepot.com/p/` is taken as it is, both cut at
      their query only; other links are ignored. */
  function LinkUrl(href: string, baseDomain: string): (r: Option<string>)
    ensures r.Some? ==> Contains(href, "/p/")
    ensures r.Some? ==> StartsWith(href, "/p/") || Contains(href, "homedepot.com/p/")
    ensures r.Some? ==> EndsWith(r.value, Before(href, '?'))
    ensures StartsWith(href, "/p/") ==> r == Some(baseDomain + Before(href, '?'))
    ensures !StartsWith(href, "/p/") && Contains(href, "homedepot.com/p/") ==> r == Some(Before(href, '?'))
  {
    if !Contains(href, "/p/") then
      assert !StartsWith(href, "/p/") by {
        if StartsWith(href, "/p/") { ContainsPrefix(href, "/p/"); }
      }
      assert !Contains(href, "homedepot.com/p/") by {
        if Contains(href, "homedepot.com/p/") { ContainsTail(href, "homedepot.com/p/", 13); }
      }
      None
    else if StartsWith(href, "/p/") then
      var url := baseDomain + Before(href, '?');
      assert url[|baseDomain|..] == Before(href, '?');
      RelativeLinkOnBase(href, baseDomain, "/p/");
      Some(url)
    else if Contains(href, "homedepot.com/p/") then
      assert EndsWith(Before(href, '?'), Before(href, '?'));
      Some(Before(href, '?'))
    else None
  }

  function Candidates(hrefs: seq<string>, baseDomain: string): (r: seq<Option<string>>)
    ensures |r| == |hrefs|
    ensures forall i :: 0 <= i < |hrefs| ==> r[i] == LinkUrl(hrefs[i], baseDomain)
  {
    seq(|hrefs|, i requires 0 <= i < |hrefs| => LinkUrl(hrefs[i], baseDomain))
  }

  /** What `extract_product_urls` returns for the page's links `hrefs` and the regex matches
      `matches` on its raw HTML. */
  function ExtractedUrls(hrefs: seq<string>, matches: seq<string>, baseUrl: string, maxResults: int): seq<string> {
    var baseDomain := BaseDomain(baseUrl);
    var fromLinks := FirstSeen(Present(Candidates(hrefs, baseDomain)));
    SliceTo(if fromLinks != [] then fromLinks else FirstSeen(FallbackUrls(matches, baseDomain)), maxResults)
  }

  /** The link loop: the link URLs, each kept the first time it is seen. */
  method CollectLinks(hrefs: seq<string>, baseDomain: string) returns (urls: seq<string>, seen: set<string>)
    ensures urls == FirstSeen(Present(Candidates(hrefs, baseDomain)))
    ensures seen == set u | u in urls
  {
    ghost var cands := Candidates(hrefs, baseDomain);
    urls, seen := [], {};
    for i := 0 to |hrefs|
      invariant urls == FirstSeen(Present(cands[..i]))
      invariant seen == set u | u in urls
    {
      var url := LinkUrl(hrefs[i], baseDomain);
      urls, seen := CollectStep(cands, i, urls, seen, url);
    }
    assert cands[..|hrefs|] == cands;
  }

  /** `extract_product_urls` */
  method ExtractProductUrls(hrefs: seq<string>, matches: seq<string>, baseUrl: string, maxResults: int)
    returns (result: seq<string>)
    ensures result == ExtractedUrls(hrefs, matches, baseUrl, maxResults)
  {
    var baseDomain := BaseDomain(baseUrl);
    var urls, seen := CollectLinks(hrefs, baseDomain);
    if urls == [] {
      urls, seen := CollectFallback(matches, baseDomain);
    }
    result := SliceTo(urls, maxResults);
  }

  // ---------------------------------------------------------------------------------
  // Properties of the extracted URLs

  /** A relative `/p/` link always yields a URL: the second `/p/` test cannot fail. The
      query is cut off and a fragment before it is kept. */
  lemma RelativeLinkKept(href: string, baseDomain: string)
    requires StartsWith(href, "/p/")
    ensures LinkUrl(href, baseDomain) == Some(baseDomain + Before(href, '?'))
    ensures '?' !in Before(href, '?')
  {
    ContainsPrefix(href, "/p/");
    BeforeKeepsPrefix(href, "/p/", '?');
    ContainsPrefix(Before(href, '?'), "/p/");
    ContainsConcat(Before(href, '?'), baseDomain, "/p/");
  }

  /** On a base domain free of `?`, no link URL has one. */
  lemma LinkUrlNoQuery(href: string, baseDomain: string)
    requires '?' !in baseDomain && LinkUrl(href, baseDomain).Some?
    ensures '?' !in LinkUrl(href, baseDomain).value
  {
  }

  /** Every URL found is free of a query when the base domain is; a fragment is cut only
      from the regex matches. */
  lemma ExtractedHaveNoQuery(hrefs: seq<string>, matches: seq<string>, baseUrl: string, maxResults: int)
    requires '?' !in BaseDomain(baseUrl) && '#' !in BaseDomain(baseUrl)
    ensures forall u :: u in ExtractedUrls(hrefs, matches, baseUrl, maxResults) ==> '?' !in u
  {
    var baseDomain := BaseDomain(baseUrl);
    var cands := Candidates(hrefs, baseDomain);
    var fromLinks := FirstSeen(Present(cands));
    var all := if fromLinks != [] then fromLinks else FirstSeen(FallbackUrls(matches, baseDomain));
    FallbackUrlsClean(matches, baseDomain);
    forall u | u in ExtractedUrls(hrefs, matches, baseUrl, maxResults) ensures '?' !in u {
      assert u in all;
      if fromLinks != [] {
        var k :| 0 <= k < |cands| && cands[k] == Some(u);
        LinkUrlNoQuery(hrefs[k], baseDomain);
      }
    }
  }

  /** The result has no repeats and is no longer than a non-negative `max_results`. */
  lemma ExtractedDistinctAndBounded(hrefs: seq<string>, matches: seq<string>, baseUrl: string, maxResults: int)
    ensures forall i, j :: 0 <= i < j < |ExtractedUrls(hrefs, matches, baseUrl, maxResults)| ==>
      ExtractedUrls(hrefs, matches, baseUrl, maxResults)[i] != ExtractedUrls(hrefs, matches, baseUrl, maxResults)[j]
    ensures maxResults >= 0 ==> |ExtractedUrls(hrefs, matches, baseUrl, maxResults)| <= maxResults
  {
    var baseDomain := BaseDomain(baseUrl);
    var fromLinks := FirstSeen(Present(Candidates(hrefs, baseDomain)));
    var all := if fromLinks != [] then fromLinks else FirstSeen(FallbackUrls(matches, baseDomain));
    var r := SliceTo(all, maxResults);
    forall i, j | 0 <= i < j < |r| ensures r[i] != r[j] {
      assert r[i] == all[i] && r[j] == all[j];
    }
  }

  /** The regex matches matter only when no link gave a product URL. */
  lemma FallbackOnlyWhenNothingFound(hrefs: seq<string>, m1: seq<string>, m2: seq<string>, baseUrl: string, maxResults: int)
    requires exists i :: 0 <= i < |hrefs| && LinkUrl(hrefs[i], BaseDomain(baseUrl)).Some?
    ensures ExtractedUrls(hrefs, m1, baseUrl, maxResults) == ExtractedUrls(hrefs, m2, baseUrl, maxResults)
  {
    var cands := Candidates(hrefs, BaseDomain(baseUrl));
    var i :| 0 <= i < |hrefs| && LinkUrl(hrefs[i], BaseDomain(baseUrl)).Some?;
    assert cands[i].value in Present(cands);
    assert cands[i].value in FirstSeen(Present(cands));
  }

  /** The `homedepot.com/p/` test looks at the whole link, query included: a link whose
      query alone holds it is kept, cut to a URL that is not a product page. */
  lemma QueryMarkerKeepsNonProduct(page: string, query: string, baseDomain: string)
    requires !StartsWith(page, "/") && !Contains(page, "/p/") && '?' !in page
    requires Contains(query, "homedepot.com/p/")
    ensures LinkUrl(page + "?" + query, baseDomain) == Some(page)
    ensures !IsProductPage(page)
  {
    var href := page + "?" + query;
    CutAtQuery(page, query);
    assert Contains(href, "homedepot.com/p/") by {
      ContainsConcat(query, page + "?", "homedepot.com/p/");
    }
    assert Contains(href, "/p/") by {
      var j := Find(query, "homedepot.com/p/");
      assert query[j + 13..j + 16] == query[j..j + 16][13..];
      ContainsAt(query, "/p/", j + 13);
      ContainsConcat(query, page + "?", "/p/");
    }
    assert !StartsWith(href, "/p/") by {
      if page == [] {
        assert href[0] == '?';
      } else {
        assert href[0] == page[0] && page[..1] == [page[0]];
      }
    }
  }
}
