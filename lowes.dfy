/** `LowesRetailer`: the search URL, the product-page test and the `/pd/` links read off a
    search page. */
module Lowes {
  import opened Wrappers
  import opened Text
  import opened Hrefs

  const SearchPrefix: string := "https://www.lowes.com/search?searchTerm="

  /** `build_search_url`: the query after `searchTerm=`, every space turned into `+`. */
  function BuildSearchUrl(query: string): (url: string)
    ensures |url| == |SearchPrefix| + |query| && url[..|SearchPrefix|] == SearchPrefix
    ensures forall i :: 0 <= i < |query| ==>
      url[|SearchPrefix| + i] == (if query[i] == ' ' then '+' else query[i])
    ensures ' ' !in url
  {
    SpeltCharwise(query, '+');
    SearchUrlOf(SearchPrefix, query, "+")
  }

  /** `is_product_page`: a lowes.com URL (in any case) with a `/pd/` path. */
  predicate IsProductPage(url: string) {
    Contains(ToLower(url), "lowes.com") && Contains(url, "/pd/")
  }

  /** The URL one link contributes before de-duplication: a relative `/pd/` link is put
      on the base domain, a link holding `lowes.com/pd/` is taken as it is, both cut at
      their query and fragment; other links are ignored. */
  function LinkUrl(href: string, baseDomain: string): (r: Option<string>)
    ensures r.Some? ==> Contains(href, "/pd/")
    ensures r.Some? ==> StartsWith(href, "/pd/") || Contains(href, "lowes.com/pd/")
    ensures r.Some? ==> EndsWith(r.value, StripQueryAndFragment(href))
    ensures StartsWith(href, "/pd/") ==> r == Some(baseDomain + StripQueryAndFragment(href))
    ensures !StartsWith(href, "/pd/") && Contains(href, "lowes.com/pd/") ==>
      r == Some(StripQueryAndFragment(href))
  {
    if !Contains(href, "/pd/") then
      assert !StartsWith(href, "/pd/") by {
        if StartsWith(href, "/pd/") { ContainsPrefix(href, "/pd/"); }
      }
      assert !Contains(href, "lowes.com/pd/") by {
        if Contains(href, "lowes.com/pd/") { ContainsTail(href, "lowes.com/pd/", 9); }
      }
      None
    else if StartsWith(href, "/pd/") then
      var url := baseDomain + StripQueryAndFragment(href);
      assert url[|baseDomain|..] == StripQueryAndFragment(href);
      RelativeLinkOnBase(href, baseDomain, "/pd/");
      Some(url)
    else if Contains(href, "lowes.com/pd/") then
      assert EndsWith(StripQueryAndFragment(href), StripQueryAndFragment(href));
      Some(StripQueryAndFragment(href))
    else None
  }

  function Candidates(hrefs: seq<string>, baseDomain: string): (r: seq<Option<string>>)
    ensures |r| == |hrefs|
    ensures forall i :: 0 <= i < |hrefs| ==> r[i] == LinkUrl(hrefs[i], baseDomain)
  {
    seq(|hrefs|, i requires 0 <= i < |hrefs| => LinkUrl(hrefs[i], baseDomain))
  }

  /** What `extract_product_urls` returns for the page's links `hrefs` and the regex matches
      `matches` on its raw HTML. */
  function ExtractedUrls(hrefs: seq<string>, matches: seq<string>, baseUrl: string, maxResults: int): seq<string> {
    var baseDomain := BaseDomain(baseUrl);
    var fromLinks := FirstSeen(Present(Candidates(hrefs, baseDomain)));
    SliceTo(if fromLinks != [] then fromLinks else FirstSeen(FallbackUrls(matches, baseDomain)), maxResults)
  }

  /** The link loop: the link URLs, each kept the first time it is seen. */
  method CollectLinks(hrefs: seq<string>, baseDomain: string) returns (urls: seq<string>, seen: set<string>)
    ensures urls == FirstSeen(Present(Candidates(hrefs, baseDomain)))
    ensures seen == set u | u in urls
  {
    ghost var cands := Candidates(hrefs, baseDomain);
    urls, seen := [], {};
    for i := 0 to |hrefs|
      invariant urls == FirstSeen(Present(cands[..i]))
      invariant seen == set u | u in urls
    {
      var url := LinkUrl(hrefs[i], baseDomain);
      urls, seen := CollectStep(cands, i, urls, seen, url);
    }
    assert cands[..|hrefs|] == cands;
  }

  /** `extract_product_urls` */
  method ExtractProductUrls(hrefs: seq<string>, matches: seq<string>, baseUrl: string, maxResults: int)
    returns (result: seq<string>)
    ensures result == ExtractedUrls(hrefs, matches, baseUrl, maxResults)
  {
    var baseDomain := BaseDomain(baseUrl);
    var urls, seen := CollectLinks(hrefs, baseDomain);
    if urls == [] {
      urls, seen := CollectFallback(matches, baseDomain);
    }
    result := SliceTo(urls, maxResults);
  }

  // ---------------------------------------------------------------------------------
  // Properties of the extracted URLs

  /** A relative `/pd/` link always yields a URL: the second `/pd/` test cannot fail. */
  lemma RelativeLinkKept(href: string, baseDomain: string)
    requires StartsWith(href, "/pd/")
    ensures LinkUrl(href, baseDomain) == Some(baseDomain + StripQueryAndFragment(href))
  {
    ContainsPrefix(href, "/pd/");
    StripKeepsPrefix(href, "/pd/");
    ContainsPrefix(StripQueryAndFragment(href), "/pd/");
    ContainsConcat(StripQueryAndFragment(href), baseDomain, "/pd/");
  }

  /** On a base domain free of `?` and `#`, no link URL has either. */
  lemma LinkUrlClean(href: string, baseDomain: string)
    requires '?' !in baseDomain && '#' !in baseDomain && LinkUrl(href, baseDomain).Some?
    ensures '?' !in LinkUrl(href, baseDomain).value && '#' !in LinkUrl(href, baseDomain).value
  {
  }

  /** Every URL found is free of a query and a fragment when the base domain is. */
  lemma ExtractedHaveNoQuery(hrefs: seq<string>, matches: seq<string>, baseUrl: string, maxResults: int)
    requires '?' !in BaseDomain(baseUrl) && '#' !in BaseDomain(baseUrl)
    ensures forall u :: u in ExtractedUrls(hrefs, matches, baseUrl, maxResults) ==> '?' !in u && '#' !in u
  {
    var baseDomain := BaseDomain(baseUrl);
    var cands := Candidates(hrefs, baseDomain);
    var fromLinks := FirstSeen(Present(cands));
    var all := if fromLinks != [] then fromLinks else FirstSeen(FallbackUrls(matches, baseDomain));
    FallbackUrlsClean(matches, baseDomain);
    forall u | u in ExtractedUrls(hrefs, matches, baseUrl, maxResults) ensures '?' !in u && '#' !in u {
      assert u in all;
      if fromLinks != [] {
        var k :| 0 <= k < |cands| && cands[k] == Some(u);
        LinkUrlClean(hrefs[k], baseDomain);
      }
    }
  }

  /** The result has no repeats and is no longer than a non-negative `max_results`. */
  lemma ExtractedDistinctAndBounded(hrefs: seq<string>, matches: seq<string>, baseUrl: string, maxResults: int)
    ensures forall i, j :: 0 <= i < j < |ExtractedUrls(hrefs, matches, baseUrl, maxResults)| ==>
      ExtractedUrls(hrefs, matches, baseUrl, maxResults)[i] != ExtractedUrls(hrefs, matches, baseUrl, maxResults)[j]
    ensures maxResults >= 0 ==> |ExtractedUrls(hrefs, matches, baseUrl, maxResults)| <= maxResults
  {
    var baseDomain := BaseDomain(baseUrl);
    var fromLinks := FirstSeen(Present(Candidates(hrefs, baseDomain)));
    var all := if fromLinks != [] then fromLinks else FirstSeen(FallbackUrls(matches, baseDomain));
    var r := SliceTo(all, maxResults);
    forall i, j | 0 <= i < j < |r| ensures r[i] != r[j] {
      assert r[i] == all[i] && r[j] == all[j];
    }
  }

  /** The regex matches matter only when no link gave a product URL. */
  lemma FallbackOnlyWhenNothingFound(hrefs: seq<string>, m1: seq<string>, m2: seq<string>, baseUrl: string, maxResults: int)
    requires exists i :: 0 <= i < |hrefs| && LinkUrl(hrefs[i], BaseDomain(baseUrl)).Some?
    ensures ExtractedUrls(hrefs, m1, baseUrl, maxResults) == ExtractedUrls(hrefs, m2, baseUrl, maxResults)
  {
    var cands := Candidates(hrefs, BaseDomain(baseUrl));
    var i :| 0 <= i < |hrefs| && LinkUrl(hrefs[i], BaseDomain(baseUrl)).Some?;
    assert cands[i].value in Present(cands);
    assert cands[i].value in FirstSeen(Present(cands));
  }

  /** The `lowes.com/pd/` test looks at the whole link, query included: a link whose query
      alone holds it is kept, cut to a URL that is not a product page. */
  lemma QueryMarkerKeepsNonProduct(page: string, query: string, baseDomain: string)
    requires !StartsWith(page, "/") && !Contains(page, "/pd/") && '?' !in page && '#' !in page
    requires Contains(query, "lowes.com/pd/")
    ensures LinkUrl(page + "?" + query, baseDomain) == Some(page)
    ensures !IsProductPage(page)
  {
    var href := page + "?" + query;
    CutAtQuery(page, query);
    assert Contains(href, "lowes.com/pd/") by {
      ContainsConcat(query, page + "?", "lowes.com/pd/");
    }
    assert Contains(href, "/pd/") by {
      var j := Find(query, "lowes.com/pd/");
      assert query[j + 9..j + 13] == query[j..j + 13][9..];
      ContainsAt(query, "/pd/", j + 9);
      ContainsConcat(query, page + "?", "/pd/");
    }
    assert !StartsWith(href, "/pd/") by {
      if page == [] {
        assert href[0] == '?';
      } else {
        assert href[0] == page[0] && page[..1] == [page[0]];
      }
    }
  }
}
