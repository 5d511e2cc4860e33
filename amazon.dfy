/** `AmazonRetailer`: the search URL, the product-page test, the canonical product URLs
    read off a search page's links, and the clean-up of a product image URL. */
module Amazon {
  import opened Wrappers
  import opened Text
  import opened Hrefs

  const SearchPrefix: string := "https://www.amazon.com/s?k="

  /** `build_search_url`: the query after `s?k=`, every space turned into `+`. */
  function BuildSearchUrl(query: string): (url: string)
    ensures |url| == |SearchPrefix| + |query| && url[..|SearchPrefix|] == SearchPrefix
    ensures forall i :: 0 <= i < |query| ==>
      url[|SearchPrefix| + i] == (if query[i] == ' ' then '+' else query[i])
    ensures ' ' !in url
  {
    SpeltCharwise(query, '+');
    SearchUrlOf(SearchPrefix, query, "+")
  }

  /** `is_product_page`: an amazon.com URL (in any case) with a `/dp/` or `/gp/product/` path. */
  predicate IsProductPage(url: string) {
    Contains(ToLower(url), "amazon.com") && (Contains(url, "/dp/") || Contains(url, "/gp/product/"))
  }

  /** `.split('/')[0].split('?')[0].split('#')[0]`: a path segment without query or fragment. */
  function Segment(s: string): (r: string)
    ensures r <= s && '/' !in r && '?' !in r && '#' !in r
  {
    StripQueryAndFragment(Before(s, '/'))
  }

  /** What follows a marker in a link: the second part of splitting on it. */
  function AfterMarker(href: string, marker: string): Option<string>
    requires |marker| > 0
  {
    var parts := SplitOn(href, marker);
    if |parts| > 1 then Some(parts[1]) else None
  }

  /** `asin and len(asin) == 10 and asin.isalnum()` */
  predicate IsAsin(s: string) {
    s != "" && |s| == 10 && AllAlnum(s)
  }

  /** The product a link names: an ASIN after `/dp/` or an id after `/gp/product/`. */
  datatype ProductRef = Asin(asin: string) | GpProduct(id: string)

  /** The accepted link shapes: relative, or absolute on amazon.com, with a product path. */
  predicate IsProductLink(h: string) {
    (StartsWith(h, "/") || (StartsWith(h, "http") && Contains(h, "amazon.com")))
    && (Contains(h, "/dp/") || Contains(h, "/gp/product/"))
  }

  /** The product named by one (stripped) link, or `None` when the loop skips it. */
  function ProductRefOf(h: string): (r: Option<ProductRef>)
    ensures r.Some? ==> h != "" && IsProductLink(h)
    ensures r.Some? ==> (r.value.Asin? <==> Contains(h, "/dp/"))
    ensures r.Some? && r.value.Asin? ==> IsAsin(r.value.asin)
    ensures r.Some? && r.value.GpProduct? ==>
      r.value.id != "" && '/' !in r.value.id && '?' !in r.value.id && '#' !in r.value.id
  {
    if h == "" || !IsProductLink(h) then None
    else if Contains(h, "/dp/") then
      match AfterMarker(h, "/dp/")
      case Some(rest) =>
        var asin := Segment(rest);
        if IsAsin(asin) then Some(Asin(asin)) else None
      case None => None
    else
      match AfterMarker(h, "/gp/product/")
      case Some(rest) =>
        var id := Segment(rest);
        if id != "" then Some(GpProduct(id)) else None
      case None => None
  }

  /** A link shape the loop accepts: `site + marker + id + tail`, with `site` empty
      (relative) or an http site on amazon.com, `marker` first found right after `site`,
      and `tail` empty or starting a new segment, a query or a fragment. */
  predicate MarkedLink(site: string, marker: string, tail: string) {
    (site == "" || (StartsWith(site, "http") && Contains(site, "amazon.com")))
    && |marker| > 0 && !Contains(site + marker[..|marker| - 1], marker)
    && (tail == "" || tail[0] == '/' || tail[0] == '?' || tail[0] == '#')
  }

  /** A `/dp/` link whose segment is an ASIN names that ASIN. */
  lemma {:induction false} DpLinkNamesAsin(site: string, asin: string, tail: string)
    requires MarkedLink(site, "/dp/", tail) && IsAsin(asin)
    ensures ProductRefOf(site + "/dp/" + asin + tail) == Some(Asin(asin))
  {
    AsinHasNoSeparator(asin);
    var h := site + "/dp/" + asin + tail;
    assert h == site + "/dp/" + (asin + tail);
    MarkedParts(site, "/dp/", asin, tail);
    assert AfterMarker(h, "/dp/") == Some(SplitOn(asin + tail, "/dp/")[0]);
  }

  /** An ASIN holds none of the separators a URL path, query or fragment ends at. */
  lemma AsinHasNoSeparator(asin: string)
    requires IsAsin(asin)
    ensures '/' !in asin && '?' !in asin && '#' !in asin
  {
    forall i | 0 <= i < |asin| ensures asin[i] != '/' && asin[i] != '?' && asin[i] != '#' {
      assert IsAlnum(asin[i]);
    }
  }

  /** A `/gp/product/` link without `/dp/` whose segment is non-empty names that id. */
  lemma {:induction false} GpLinkNamesId(site: string, id: string, tail: string)
    requires MarkedLink(site, "/gp/product/", tail)
    requires id != "" && '/' !in id && '?' !in id && '#' !in id
    requires !Contains(site + "/gp/product/" + id + tail, "/dp/")
    ensures ProductRefOf(site + "/gp/product/" + id + tail) == Some(GpProduct(id))
  {
    var h := site + "/gp/product/" + id + tail;
    assert h == site + "/gp/product/" + (id + tail);
    MarkedParts(site, "/gp/product/", id, tail);
    assert AfterMarker(h, "/gp/product/") == Some(SplitOn(id + tail, "/gp/product/")[0]);
  }

  /** The facts `ProductRefOf` reads off a marked link: it is a candidate link, and the
      segment after its first marker is `id`. */
  lemma {:induction false} MarkedParts(site: string, marker: string, id: string, tail: string)
    requires MarkedLink(site, marker, tail) && marker[0] == '/'
    requires id != "" && '/' !in id && '?' !in id && '#' !in id
    ensures var h := site + marker + (id + tail);
      h != "" && Contains(h, marker)
      && IsProductLink(h) == (Contains(h, "/dp/") || Contains(h, "/gp/product/"))
      && AfterMarker(h, marker) == Some(SplitOn(id + tail, marker)[0])
      && Segment(SplitOn(id + tail, marker)[0]) == id
  {
    MarkedAfter(site, marker, id + tail);
    SegmentOfHead(id, tail, marker);
    MarkedSite(site, marker, id + tail);
  }

  /** After the first marker of `site + marker + rest` comes the first split part of `rest`. */
  lemma {:induction false} MarkedAfter(site: string, marker: string, rest: string)
    requires |marker| > 0 && !Contains(site + marker[..|marker| - 1], marker)
    ensures var h := site + marker + rest;
      Contains(h, marker) && AfterMarker(h, marker) == Some(SplitOn(rest, marker)[0])
  {
    var h := site + marker + rest;
    FirstMarkerAt(site, marker, rest);
    SplitOnAt(h, marker, |site|);
    assert h[|site| + |marker|..] == rest;
  }

  /** A relative or amazon.com http site keeps `site + marker + rest` a candidate link. */
  lemma {:induction false} MarkedSite(site: string, marker: string, rest: string)
    requires site == "" || (StartsWith(site, "http") && Contains(site, "amazon.com"))
    requires |marker| > 0 && marker[0] == '/'
    ensures var h := site + marker + rest;
      h != "" && IsProductLink(h) == (Contains(h, "/dp/") || Contains(h, "/gp/product/"))
  {
    var h := site + marker + rest;
    if site == "" {
      assert h[..1] == [marker[0]];
    } else {
      assert h[..|site|] == site;
      assert h[..4] == site[..4];
      ContainsInPrefix(h, site, "amazon.com");
    }
  }

  /** `marker` first occurs in `site + marker + rest` right after `site` when no earlier
      occurrence fits in `site` and the marker's own first characters. */
  lemma {:induction false} FirstMarkerAt(site: string, marker: string, rest: string)
    requires |marker| > 0 && !Contains(site + marker[..|marker| - 1], marker)
    ensures Find(site + marker + rest, marker) == |site|
  {
    var h := site + marker + rest;
    var early := site + marker[..|marker| - 1];
    assert h[|site|..|site| + |marker|] == marker;
    assert OccursAt(h, marker, |site|);
    var r := Find(h, marker);
    if r < |site| {
      assert OccursAt(h, marker, r);
      assert h[r..r + |marker|] == early[r..r + |marker|] by {
        forall i | r <= i < r + |marker| ensures h[i] == early[i] {
          if i < |site| { assert h[i] == site[i] == early[i]; }
          else { assert h[i] == marker[i - |site|] == early[i]; }
        }
      }
      ContainsAt(early, marker, r);
    }
  }

  /** The segment of the first split part after a marker starting with `/` is the leading
      `id`, when `id` holds no separator and `tail` starts a new segment, query or fragment. */
  lemma {:induction false} SegmentOfHead(id: string, tail: string, marker: string)
    requires |marker| > 0 && marker[0] == '/'
    requires '/' !in id && '?' !in id && '#' !in id
    requires tail == "" || tail[0] == '/' || tail[0] == '?' || tail[0] == '#'
    ensures Segment(SplitOn(id + tail, marker)[0]) == id
  {
    var p := SplitOn(id + tail, marker)[0];
    FirstPartHead(id, tail, marker);
    CutKeepsHead(id, p[|id|..], tail);
    assert p == id + p[|id|..];
  }

  /** The first split part of `id + tail` at a `/`-led marker is `id` and a prefix of `tail`. */
  lemma {:induction false} FirstPartHead(id: string, tail: string, marker: string)
    requires |marker| > 0 && marker[0] == '/' && '/' !in id
    ensures var p := SplitOn(id + tail, marker)[0]; id <= p && p[|id|..] <= tail
  {
    var r := id + tail;
    SplitOnHead(r, marker);
    var k := Find(r, marker);
    if k >= 0 {
      NoMarkerInHead(id, tail, marker, k);
    } else {
      k := |r|;
      assert r[..k] == r;
    }
    assert SplitOn(r, marker)[0] == r[..k];
    PrefixSplit(id, tail, k);
  }

  /** A prefix of `id + tail` at least as long as `id` is `id` and a prefix of `tail`. */
  lemma {:induction false} PrefixSplit(id: string, tail: string, k: int)
    requires |id| <= k <= |id| + |tail|
    ensures var p := (id + tail)[..k]; id <= p && p[|id|..] <= tail
  {
    var p := (id + tail)[..k];
    assert p[|id|..] == tail[..k - |id|];
  }

  /** A `/`-led marker found in `id + tail` starts at or after the `/`-free `id`. */
  lemma {:induction false} NoMarkerInHead(id: string, tail: string, marker: string, k: int)
    requires |marker| > 0 && marker[0] == '/' && '/' !in id
    requires OccursAt(id + tail, marker, k)
    ensures k >= |id|
  {
    var r := id + tail;
    assert r[k] == r[k..k + |marker|][0] == '/';
  }

  /** Cutting `id + w` at the path, query and fragment separators leaves `id`, when `w` is a
      prefix of a tail that starts a new segment, query or fragment. */
  lemma {:induction false} CutKeepsHead(id: string, w: string, tail: string)
    requires '/' !in id && '?' !in id && '#' !in id && w <= tail
    requires tail == "" || tail[0] == '/' || tail[0] == '?' || tail[0] == '#'
    ensures StripQueryAndFragment(Before(id + w, '/')) == id
  {
    BeforeConcat(id, w, '/');
    var v := Before(w, '/');
    BeforeConcat(id, v, '?');
    var x := Before(v, '?');
    BeforeConcat(id, x, '#');
    if x != "" {
      assert v[0] == w[0] == tail[0] && x[0] == v[0];
      assert Before(x, '#') == [];
    }
  }

  /** Cutting `x + w` at `c` keeps all of a `c`-free `x`. */
  lemma {:induction false} BeforeConcat(x: string, w: string, c: char)
    requires c !in x
    ensures Before(x + w, c) == x + Before(w, c)
  {
    if x == [] {
      assert x + w == w;
    } else {
      var s := x + w;
      assert s[0] == x[0] != c;
      assert s[1..] == x[1..] + w;
      assert c !in x[1..];
      BeforeConcat(x[1..], w, c);
      calc {
        Before(s, c);
        [x[0]] + Before(x[1..] + w, c);
        [x[0]] + (x[1..] + Before(w, c));
        ([x[0]] + x[1..]) + Before(w, c);
        { assert [x[0]] + x[1..] == x; }
        x + Before(w, c);
      }
    }
  }


  /** The clean URL built for a product on the base domain. */
  function ProductUrl(baseDomain: string, p: ProductRef): string {
    match p
    case Asin(asin) => baseDomain + "/dp/" + asin
    case GpProduct(id) => baseDomain + "/gp/product/" + id
  }

  /** The URL one link contributes, or `None`. */
  function CanonicalUrl(href: string, baseDomain: string): (r: Option<string>)
    ensures r.Some? ==> StartsWith(r.value, baseDomain + "/")
    ensures r.Some? && !StartsWith(Strip(href), "/") ==>
      StartsWith(Strip(href), "http") && Contains(Strip(href), "amazon.com")
    ensures Strip(href) == "" ==> r.None?
  {
    match ProductRefOf(Strip(href))
    case Some(p) =>
      ProductUrlOnBase(baseDomain, p);
      Some(ProductUrl(baseDomain, p))
    case None => None
  }

  /** A `/dp/` link with no edge spaces is kept as the clean `/dp/<asin>` URL on the base. */
  lemma {:induction false} CanonicalDpLink(site: string, asin: string, tail: string, baseDomain: string)
    requires MarkedLink(site, "/dp/", tail) && IsAsin(asin)
    requires tail == "" || !IsSpace(tail[|tail| - 1])
    ensures CanonicalUrl(site + "/dp/" + asin + tail, baseDomain) == Some(baseDomain + "/dp/" + asin)
  {
    var h := site + "/dp/" + asin + tail;
    assert IsAlnum(asin[|asin| - 1]);
    NoEdgeSpace(site, "/dp/" + asin, tail);
    assert h == site + ("/dp/" + asin) + tail;
    DpLinkNamesAsin(site, asin, tail);
  }

  /** A `/gp/product/` link without `/dp/` and with no edge spaces is kept as the clean
      `/gp/product/<id>` URL on the base. */
  lemma {:induction false} CanonicalGpLink(site: string, id: string, tail: string, baseDomain: string)
    requires MarkedLink(site, "/gp/product/", tail)
    requires id != "" && '/' !in id && '?' !in id && '#' !in id
    requires !Contains(site + "/gp/product/" + id + tail, "/dp/")
    requires !IsSpace(id[|id| - 1]) && (tail == "" || !IsSpace(tail[|tail| - 1]))
    ensures CanonicalUrl(site + "/gp/product/" + id + tail, baseDomain) == Some(baseDomain + "/gp/product/" + id)
  {
    var h := site + "/gp/product/" + id + tail;
    NoEdgeSpace(site, "/gp/product/" + id, tail);
    assert h == site + ("/gp/product/" + id) + tail;
    GpLinkNamesId(site, id, tail);
  }

  /** `site + mid + tail` has no edge space, so `strip()` leaves it as it is. */
  lemma {:induction false} NoEdgeSpace(site: string, mid: string, tail: string)
    requires site == "" || StartsWith(site, "http")
    requires |mid| > 0 && mid[0] == '/' && !IsSpace(mid[|mid| - 1])
    requires tail == "" || !IsSpace(tail[|tail| - 1])
    ensures Strip(site + mid + tail) == site + mid + tail
  {
    var h := site + mid + tail;
    if site == "" {
      assert h[0] == mid[0];
    } else {
      assert h[0] == site[..4][0] == 'h';
    }
    if tail == "" {
      assert h[|h| - 1] == mid[|mid| - 1];
    } else {
      assert h[|h| - 1] == tail[|tail| - 1];
    }
    StripNoEdgeSpace(h);
  }

  /** The relative link `/dp/<asin>` is kept as `<base>/dp/<asin>`. */
  lemma {:induction false} RelativeDpLinkKept(asin: string, baseDomain: string)
    requires IsAsin(asin)
    ensures CanonicalUrl("/dp/" + asin, baseDomain) == Some(baseDomain + "/dp/" + asin)
  {
    assert !Contains("/dp", "/dp/");
    assert "" + "/dp/" + asin + "" == "/dp/" + asin;
    CanonicalDpLink("", asin, "", baseDomain);
  }

  /** The absolute link `https://www.amazon.com/dp/<asin>` is kept as `<base>/dp/<asin>`. */
  lemma {:induction false} AbsoluteDpLinkKept(asin: string, baseDomain: string)
    requires IsAsin(asin)
    ensures CanonicalUrl("https://www.amazon.com/dp/" + asin, baseDomain) == Some(baseDomain + "/dp/" + asin)
  {
    var site := "https://www.amazon.com";
    AmazonSite(site);
    assert "/dp/"[..3] == "/dp";
    assert site + "/dp/" + asin + "" == "https://www.amazon.com/dp/" + asin;
    CanonicalDpLink(site, asin, "", baseDomain);
  }

  /** `https://www.amazon.com` is an http site on amazon.com before which `/dp/` is first. */
  lemma {:induction false} AmazonSite(site: string)
    requires site == "https://www.amazon.com"
    ensures StartsWith(site, "http") && Contains(site, "amazon.com") && !Contains(site + "/dp", "/dp/")
  {
    assert site[..4] == "http";
    assert site[12..22] == "amazon.com";
    ContainsAt(site, "amazon.com", 12);
    NoDpIn(site + "/dp");
  }

  /** `https://www.amazon.com/dp` does not contain `/dp/`. */
  lemma {:induction false} NoDpIn(s: string)
    requires s == "https://www.amazon.com/dp"
    ensures !Contains(s, "/dp/")
  {
    forall j | 0 <= j && j + 4 <= |s| ensures !OccursAt(s, "/dp/", j) {
      assert s[j..j + 4][0] == s[j] && s[j..j + 4][3] == s[j + 3];
    }
  }

  lemma ProductUrlOnBase(baseDomain: string, p: ProductRef)
    ensures StartsWith(ProductUrl(baseDomain, p), baseDomain + "/")
  {
    var u := ProductUrl(baseDomain, p);
    assert u[..|baseDomain| + 1] == baseDomain + "/";
  }

  /** The URLs the link loop finds, in link order, before de-duplication. */
  function Found(hrefs: seq<string>, baseDomain: string): seq<string>
    decreases |hrefs|
  {
    if hrefs == [] then []
    else
      var n := |hrefs| - 1;
      var earlier := Found(hrefs[..n], baseDomain);
      match CanonicalUrl(hrefs[n], baseDomain)
      case Some(u) => earlier + [u]
      case None => earlier
  }

  /** What `extract_product_urls` returns for the page's links `hrefs` and the regex matches
      `matches` on its raw HTML. */
  function ExtractedUrls(hrefs: seq<string>, matches: seq<string>, baseUrl: string, maxResults: int): seq<string> {
    var baseDomain := BaseDomain(baseUrl);
    var fromLinks := FirstSeen(Found(hrefs, baseDomain));
    SliceTo(if fromLinks != [] then fromLinks else FirstSeen(FallbackUrls(matches, baseDomain)), maxResults)
  }

  lemma FoundSnoc(hrefs: seq<string>, i: nat, baseDomain: string)
    requires i < |hrefs|
    ensures CanonicalUrl(hrefs[i], baseDomain).None? ==>
      Found(hrefs[..i + 1], baseDomain) == Found(hrefs[..i], baseDomain)
    ensures CanonicalUrl(hrefs[i], baseDomain).Some? ==>
      Found(hrefs[..i + 1], baseDomain) == Found(hrefs[..i], baseDomain) + [CanonicalUrl(hrefs[i], baseDomain).value]
  {
    assert hrefs[..i + 1][..i] == hrefs[..i];
  }

  /** The link loop: canonical URLs, each kept the first time it is seen. */
  method CollectLinks(hrefs: seq<string>, baseDomain: string) returns (urls: seq<string>, seen: set<string>)
    ensures urls == FirstSeen(Found(hrefs, baseDomain))
    ensures seen == set u | u in urls
  {
    urls, seen := [], {};
    for i := 0 to |hrefs|
      invariant urls == FirstSeen(Found(hrefs[..i], baseDomain))
      invariant seen == set u | u in urls
    {
      FoundSnoc(hrefs, i, baseDomain);
      var url := CanonicalUrl(hrefs[i], baseDomain);
      if url.Some? {
        urls, seen := AppendUnseen(Found(hrefs[..i], baseDomain), urls, seen, url.value);
      }
    }
    assert hrefs[..|hrefs|] == hrefs;
  }

  /** `extract_product_urls` */
  method ExtractProductUrls(hrefs: seq<string>, matches: seq<string>, baseUrl: string, maxResults: int)
    returns (result: seq<string>)
    ensures result == ExtractedUrls(hrefs, matches, baseUrl, maxResults)
  {
    var baseDomain := BaseDomain(baseUrl);
    var urls, seen := CollectLinks(hrefs, baseDomain);
    if urls == [] {
      urls, seen := CollectFallback(matches, baseDomain);
    }
    result := SliceTo(urls, maxResults);
  }

  // ---------------------------------------------------------------------------------
  // Properties of the extracted URLs

  /** The result has no repeats, is no longer than a non-negative `max_results`, and every
      URL in it is built on the base domain of `base_url` (from a link or a regex match). */
  lemma ExtractedDistinctAndBounded(hrefs: seq<string>, matches: seq<string>, baseUrl: string, maxResults: int)
    ensures forall i, j :: 0 <= i < j < |ExtractedUrls(hrefs, matches, baseUrl, maxResults)| ==>
      ExtractedUrls(hrefs, matches, baseUrl, maxResults)[i] != ExtractedUrls(hrefs, matches, baseUrl, maxResults)[j]
    ensures maxResults >= 0 ==> |ExtractedUrls(hrefs, matches, baseUrl, maxResults)| <= maxResults
  {
    var baseDomain := BaseDomain(baseUrl);
    var fromLinks := FirstSeen(Found(hrefs, baseDomain));
    var all := if fromLinks != [] then fromLinks else FirstSeen(FallbackUrls(matches, baseDomain));
    var r := SliceTo(all, maxResults);
    forall i, j | 0 <= i < j < |r| ensures r[i] != r[j] {
      assert r[i] == all[i] && r[j] == all[j];
    }
  }

  /** Every URL the link loop finds is built on the base domain. */
  lemma {:induction false} FoundOnBase(hrefs: seq<string>, baseDomain: string)
    ensures forall u :: u in Found(hrefs, baseDomain) ==> StartsWith(u, baseDomain + "/")
    decreases |hrefs|
  {
    if hrefs != [] {
      FoundOnBase(hrefs[..|hrefs| - 1], baseDomain);
    }
  }

  /** The regex matches matter only when no link gave a product URL. */
  lemma FallbackOnlyWhenNothingFound(hrefs: seq<string>, m1: seq<string>, m2: seq<string>, baseUrl: string, maxResults: int)
    requires Found(hrefs, BaseDomain(baseUrl)) != []
    ensures ExtractedUrls(hrefs, m1, baseUrl, maxResults) == ExtractedUrls(hrefs, m2, baseUrl, maxResults)
  {
    var f := Found(hrefs, BaseDomain(baseUrl));
    assert f[0] in FirstSeen(f);
  }

  /** The product URLs of two products differ. */
  lemma ProductUrlInjective(baseDomain: string, p: ProductRef, q: ProductRef)
    requires ProductUrl(baseDomain, p) == ProductUrl(baseDomain, q)
    ensures p == q
  {
    var u := ProductUrl(baseDomain, p);
    var n := |baseDomain|;
    assert u[n + 1] == ProductUrl(baseDomain, q)[n + 1];
    match p
    case Asin(a) =>
      assert u[n + 1] == 'd';
      var b := q.asin;
      assert u[n + 4..] == a && ProductUrl(baseDomain, q)[n + 4..] == b;
    case GpProduct(a) =>
      assert u[n + 1] == 'g';
      var b := q.id;
      assert u[n + 12..] == a && ProductUrl(baseDomain, q)[n + 12..] == b;
  }

  /** On an amazon.com base domain every product URL is a product page. */
  lemma ProductUrlIsProductPage(baseDomain: string, p: ProductRef)
    requires Contains(ToLower(baseDomain), "amazon.com")
    ensures IsProductPage(ProductUrl(baseDomain, p))
  {
    match p
    case Asin(a) => MarkedUrl(baseDomain, "/dp/", a, "amazon.com");
    case GpProduct(a) => MarkedUrl(baseDomain, "/gp/product/", a, "amazon.com");
  }

  /** `base + marker + id` keeps what the lower-cased base mentions and holds the marker. */
  lemma MarkedUrl(base: string, marker: string, id: string, domain: string)
    requires Contains(ToLower(base), domain)
    ensures Contains(ToLower(base + marker + id), domain) && Contains(base + marker + id, marker)
  {
    var u := base + marker + id;
    assert u == base + (marker + id);
    LowerConcat(base, marker + id);
    ContainsConcat(ToLower(base), ToLower(marker + id), domain);
    assert u[|base|..|base| + |marker|] == marker;
    ContainsAt(u, marker, |base|);
  }

  // ---------------------------------------------------------------------------------
  // Image URL clean-up

  const ImageExtensions: seq<string> := [".jpg", ".jpeg", ".png", ".gif", ".webp"]

  /** `any(s.lower().endswith(ext) for ext in [...])` */
  predicate HasImageExtension(s: string) {
    exists k :: 0 <= k < |ImageExtensions| && EndsWith(ToLower(s), ImageExtensions[k])
  }

  /** The first listed extension `s` ends with, in list order. */
  function ExtensionFrom(s: string, k: nat): (r: Option<string>)
    requires k <= |ImageExtensions|
    ensures r.Some? ==> r.value in ImageExtensions && EndsWith(ToLower(s), r.value)
    ensures r.None? <==> forall j :: k <= j < |ImageExtensions| ==> !EndsWith(ToLower(s), ImageExtensions[j])
    decreases |ImageExtensions| - k
  {
    if k == |ImageExtensions| then None
    else if EndsWith(ToLower(s), ImageExtensions[k]) then Some(ImageExtensions[k])
    else ExtensionFrom(s, k + 1)
  }

  /** The extension the inner loop appends for a part. */
  function ExtensionOf(s: string): (r: Option<string>)
    ensures r.Some? <==> HasImageExtension(s)
    ensures r.Some? ==> r.value in ImageExtensions
  {
    ExtensionFrom(s, 0)
  }

  /** The extension of the first part, in order, that has one. */
  function FirstExtension(parts: seq<string>): (r: Option<string>)
    ensures r.Some? ==> r.value in ImageExtensions
    ensures r.None? <==> forall k :: 0 <= k < |parts| ==> !HasImageExtension(parts[k])
    decreases |parts|
  {
    if parts == [] then None
    else if ExtensionOf(parts[0]).Some? then ExtensionOf(parts[0])
    else
      var r := FirstExtension(parts[1..]);
      assert forall k :: 1 <= k < |parts| ==> parts[k] == parts[1..][k - 1];
      r
  }

  /** A relative image URL made absolute. */
  function Absolute(img: string, baseDomain: string): string {
    if StartsWith(img, "//") then "https:" + img
    else if StartsWith(img, "/") then baseDomain + img
    else img
  }

  /** An amazon.com image URL without its size suffix: everything from the first `._` is
      dropped and an extension found after it is put back. */
  function WithoutSizeSuffix(u: string): (r: string)
    ensures !Contains(r, "._")
    ensures var stem := SplitOn(u, "._")[0];
      StartsWith(r, stem) && (r == stem || r[|stem|..] in ImageExtensions)
    ensures HasImageExtension(SplitOn(u, "._")[0]) ==> r == SplitOn(u, "._")[0]
  {
    var parts := SplitOn(u, "._");
    var stem := parts[0];
    if HasImageExtension(stem) then stem
    else match FirstExtension(parts[1..])
      case Some(ext) =>
        NoDotUnderscore(stem, ext);
        stem + ext
      case None => stem
  }

  /** What the clean-up makes of a found image URL: the URL returned, or `None` when it
      does not start with `http` and the next selector is tried. */
  function CleanedImageUrl(img: string, baseDomain: string): (r: Option<string>)
    ensures r.Some? ==> StartsWith(r.value, "http")
    ensures r.Some? && Contains(Absolute(img, baseDomain), "amazon.com") ==> !Contains(r.value, "._")
  {
    var u := Absolute(img, baseDomain);
    var v := if Contains(u, "amazon.com") && Contains(u, "._") then WithoutSizeSuffix(u) else u;
    if StartsWith(v, "http") then Some(v) else None
  }

  /** When the part before the first `._` ends in an image extension, the clean URL is
      exactly that part. */
  lemma {:induction false} StemKept(u: string)
    requires Contains(u, "._") && HasImageExtension(u[..Find(u, "._")])
    ensures WithoutSizeSuffix(u) == u[..Find(u, "._")]
  {
    SplitOnHead(u, "._");
  }

  /** A stem without an extension, followed by `._` and a size suffix that ends in one,
      gets that suffix's extension back. */
  lemma {:induction false} SuffixExtensionRestored(stem: string, sfx: string)
    requires !Contains(stem, "._") && !HasImageExtension(stem)
    requires !Contains(sfx, "._") && HasImageExtension(sfx)
    ensures WithoutSizeSuffix(stem + "._" + sfx) == stem + ExtensionOf(sfx).value
  {
    var u := stem + "._" + sfx;
    SizeSuffixParts(stem, sfx);
    var parts := SplitOn(u, "._");
    assert parts[1..] == [sfx];
    assert FirstExtension([sfx]) == ExtensionOf(sfx);
  }

  /** `stem + "._" + sfx` splits at `._` into exactly `stem` and `sfx`. */
  lemma {:induction false} SizeSuffixParts(stem: string, sfx: string)
    requires !Contains(stem, "._") && !Contains(sfx, "._")
    ensures Find(stem + "._" + sfx, "._") == |stem|
    ensures SplitOn(stem + "._" + sfx, "._") == [stem, sfx]
  {
    var u := stem + "._" + sfx;
    DotStaysAlone(stem);
    assert "._"[..1] == ".";
    FirstMarkerAt(stem, "._", sfx);
    SplitOnAt(u, "._", |stem|);
    assert u[..|stem|] == stem && u[|stem| + 2..] == sfx;
    assert SplitOn(sfx, "._") == [sfx];
  }

  /** Appending a `.` to a string without `._` makes no `._`. */
  lemma {:induction false} DotStaysAlone(stem: string)
    requires !Contains(stem, "._")
    ensures !Contains(stem + ".", "._")
  {
    var s := stem + ".";
    forall j | OccursAt(s, "._", j) ensures false {
      assert s[j + 1] == s[j..j + 2][1] == '_';
      assert stem[j..j + 2] == s[j..j + 2];
      ContainsAt(stem, "._", j);
    }
  }

  /** An amazon.com http image URL with a size suffix is cleaned to its stem and the
      suffix's extension. */
  lemma {:induction false} AmazonImageCleaned(stem: string, sfx: string, baseDomain: string)
    requires StartsWith(stem, "http") && Contains(stem, "amazon.com")
    requires !Contains(stem, "._") && !HasImageExtension(stem)
    requires !Contains(sfx, "._") && HasImageExtension(sfx)
    ensures CleanedImageUrl(stem + "._" + sfx, baseDomain) == Some(stem + ExtensionOf(sfx).value)
  {
    var u := stem + "._" + sfx;
    SuffixedImageUrl(stem, sfx, baseDomain);
    SuffixExtensionRestored(stem, sfx);
    HttpKept(stem, ExtensionOf(sfx).value);
  }

  /** An amazon.com http URL with `._` is already absolute and takes the clean-up branch. */
  lemma {:induction false} SuffixedImageUrl(stem: string, sfx: string, baseDomain: string)
    requires StartsWith(stem, "http") && Contains(stem, "amazon.com") && !Contains(stem, "._")
    requires !Contains(sfx, "._")
    ensures var u := stem + "._" + sfx;
      Absolute(u, baseDomain) == u && Contains(u, "amazon.com") && Contains(u, "._")
  {
    var u := stem + "._" + sfx;
    assert u == stem + ("._" + sfx);
    HttpKept(stem, "._" + sfx);
    HttpIsAbsolute(u, baseDomain);
    ContainsInPrefix(u, stem, "amazon.com");
    SizeSuffixParts(stem, sfx);
  }

  /** An http URL is left as it is by `Absolute`. */
  lemma {:induction false} HttpIsAbsolute(u: string, baseDomain: string)
    requires StartsWith(u, "http")
    ensures Absolute(u, baseDomain) == u
  {
    assert u[0] == u[..4][0] == 'h';
  }

  /** Appending to an http URL keeps it an http URL. */
  lemma {:induction false} HttpKept(s: string, ext: string)
    requires StartsWith(s, "http")
    ensures StartsWith(s + ext, "http")
  {
    assert (s + ext)[..4] == s[..4];
  }

  /** An http image URL without `._` is returned as it is. */
  lemma {:induction false} PlainImageKept(u: string, baseDomain: string)
    requires StartsWith(u, "http") && !Contains(u, "._")
    ensures CleanedImageUrl(u, baseDomain) == Some(u)
  {
    HttpIsAbsolute(u, baseDomain);
  }

  lemma ExtensionShape(ext: string)
    requires ext in ImageExtensions
    ensures |ext| >= 2 && ext[0] == '.' && '_' !in ext
  {
  }

  /** A stem without `._` followed by an extension has no `._`. */
  lemma NoDotUnderscore(stem: string, ext: string)
    requires !Contains(stem, "._") && ext in ImageExtensions
    ensures !Contains(stem + ext, "._")
  {
    ExtensionShape(ext);
    var s := stem + ext;
    if Contains(s, "._") {
      var j := Find(s, "._");
      assert s[j..j + 2] == "._";
      assert s[j] == '.' && s[j + 1] == '_' by {
        assert s[j..j + 2][0] == s[j] && s[j..j + 2][1] == s[j + 1];
      }
      if j + 2 <= |stem| {
        assert stem[j..j + 2] == s[j..j + 2];
        ContainsAt(stem, "._", j);
      }
    }
  }

  /** The inner loop over the extensions for one part. */
  method FindExtension(part: string) returns (ext: Option<string>)
    ensures ext == ExtensionOf(part)
  {
    var lower := ToLower(part);
    for k := 0 to |ImageExtensions|
      invariant ExtensionFrom(part, 0) == ExtensionFrom(part, k)
    {
      if EndsWith(lower, ImageExtensions[k]) {
        return Some(ImageExtensions[k]);
      }
    }
    return None;
  }

  /** The loop over the parts after the first `._`. */
  method FindFirstExtension(parts: seq<string>) returns (ext: Option<string>)
    ensures ext == FirstExtension(parts)
  {
    var i := 0;
    while i < |parts|
      invariant i <= |parts|
      invariant FirstExtension(parts) == FirstExtension(parts[i..])
    {
      assert parts[i..][1..] == parts[i + 1..];
      var found := FindExtension(parts[i]);
      if found.Some? {
        return found;
      }
      i := i + 1;
    }
    return None;
  }

  /** The clean-up of one image URL in `extract_product_image`. */
  method CleanImageUrl(img: string, baseDomain: string) returns (r: Option<string>)
    ensures r == CleanedImageUrl(img, baseDomain)
  {
    var imgUrl := img;
    if StartsWith(imgUrl, "//") {
      imgUrl := "https:" + imgUrl;
    } else if StartsWith(imgUrl, "/") {
      imgUrl := baseDomain + imgUrl;
    }
    if Contains(imgUrl, "amazon.com") && Contains(imgUrl, "._") {
      var parts := SplitOn(imgUrl, "._");
      var stem := parts[0];
      if !HasImageExtension(stem) {
        var ext := FindFirstExtension(parts[1..]);
        if ext.Some? {
          stem := stem + ext.value;
        }
      }
      imgUrl := stem;
    }
    if StartsWith(imgUrl, "http") {
      return Some(imgUrl);
    }
    return None;
  }

  /** Cleaning a cleaned URL changes nothing. */
  lemma CleanedImageUrlIdempotent(img: string, baseDomain: string)
    requires CleanedImageUrl(img, baseDomain).Some?
    ensures CleanedImageUrl(CleanedImageUrl(img, baseDomain).value, baseDomain) == CleanedImageUrl(img, baseDomain)
  {
    var v := CleanedImageUrl(img, baseDomain).value;
    assert v[0] == 'h';
    assert Absolute(v, baseDomain) == v;
  }
}
