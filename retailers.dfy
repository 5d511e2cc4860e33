/** The retailer registry and `get_retailer_handler`: a retailer is picked by name, or by
    the first retailer domain a URL mentions. */
module Retailers {
  import opened Wrappers
  import opened Text
  import Amazon
  import Walmart
  import HomeDepot
  import Lowes

  /** The four handlers of the registry. */
  datatype Handler = AmazonRetailer | WalmartRetailer | HomeDepotRetailer | LowesRetailer

  /** `_RETAILER_REGISTRY` */
  const Registry: map<string, Handler> := map[
    "amazon" := AmazonRetailer,
    "walmart" := WalmartRetailer,
    "homedepot" := HomeDepotRetailer,
    "lowes" := LowesRetailer
  ]

  /** The registry key of a handler. */
  function NameOf(h: Handler): (name: string)
    ensures forall i :: 0 <= i < |name| ==> IsLowerLetter(name[i])
  {
    match h
    case AmazonRetailer => "amazon"
    case WalmartRetailer => "walmart"
    case HomeDepotRetailer => "homedepot"
    case LowesRetailer => "lowes"
  }

  /** The domain a URL must mention to be handed to a handler. */
  function DomainOf(h: Handler): (d: string)
    ensures IsLowerCase(d)
  {
    match h
    case AmazonRetailer => "amazon.com"
    case WalmartRetailer => "walmart.com"
    case HomeDepotRetailer => "homedepot.com"
    case LowesRetailer => "lowes.com"
  }

  /** The position of a handler's domain test in the if-chain. */
  function Rank(h: Handler): nat {
    match h
    case AmazonRetailer => 0
    case WalmartRetailer => 1
    case HomeDepotRetailer => 2
    case LowesRetailer => 3
  }

  /** `get_retailer_handler`: input holding `://` is a URL, lower-cased and matched against
      the domains in turn; anything else is a retailer name looked up in any case. */
  function GetRetailerHandler(nameOrUrl: string): (r: Option<Handler>)
    ensures !Contains(nameOrUrl, "://") ==> (r.Some? <==> ToLower(nameOrUrl) in Registry)
  {
    if Contains(nameOrUrl, "://") then
      var url := ToLower(nameOrUrl);
      if Contains(url, "amazon.com") then Some(Registry["amazon"])
      else if Contains(url, "walmart.com") then Some(Registry["walmart"])
      else if Contains(url, "homedepot.com") then Some(Registry["homedepot"])
      else if Contains(url, "lowes.com") then Some(Registry["lowes"])
      else None
    else
      var name := ToLower(nameOrUrl);
      if name in Registry then Some(Registry[name]) else None
  }

  /** `h`'s domain is the first one of the if-chain that `lower` mentions. */
  predicate FirstMentioned(lower: string, h: Handler) {
    Contains(lower, DomainOf(h)) && forall g :: Rank(g) < Rank(h) ==> !Contains(lower, DomainOf(g))
  }

  /** A URL goes to the handler whose domain it mentions and that comes first in the
      if-chain, and to none when it mentions no retailer domain. */
  lemma UrlDispatchIsFirstMatch(url: string)
    requires Contains(url, "://")
    ensures GetRetailerHandler(url).Some? ==> FirstMentioned(ToLower(url), GetRetailerHandler(url).value)
    ensures GetRetailerHandler(url).None? <==> forall h :: !Contains(ToLower(url), DomainOf(h))
  {
    var lower := ToLower(url);
    RegistryIsExact();
    var r: Option<Handler> :=
      if Contains(lower, "amazon.com") then Some(AmazonRetailer)
      else if Contains(lower, "walmart.com") then Some(WalmartRetailer)
      else if Contains(lower, "homedepot.com") then Some(HomeDepotRetailer)
      else if Contains(lower, "lowes.com") then Some(LowesRetailer)
      else None;
    assert GetRetailerHandler(url) == r;
    forall g | r.None? || Rank(g) < Rank(r.value) ensures !Contains(lower, DomainOf(g)) {
      match g
      case AmazonRetailer =>
      case WalmartRetailer =>
      case HomeDepotRetailer =>
      case LowesRetailer =>
    }
  }

  /** A URL goes to the first handler of the if-chain whose domain it mentions. */
  lemma DispatchToFirst(url: string, h: Handler)
    requires Contains(url, "://") && FirstMentioned(ToLower(url), h)
    ensures GetRetailerHandler(url) == Some(h)
  {
    var lower := ToLower(url);
    UrlDispatchIsFirstMatch(url);
    assert GetRetailerHandler(url).Some? by {
      assert Contains(lower, DomainOf(h));
    }
    var r := GetRetailerHandler(url).value;
    assert FirstMentioned(lower, r);
    assert !(Rank(r) < Rank(h));
    assert !(Rank(h) < Rank(r));
    RankInjective(r, h);
  }

  /** Each handler has its own place in the if-chain. */
  lemma RankInjective(g: Handler, h: Handler)
    requires Rank(g) == Rank(h)
    ensures g == h
  {
  }

  /** A name goes to the handler registered under its lower-case form. */
  lemma NameLookup(name: string)
    requires !Contains(name, "://")
    ensures GetRetailerHandler(name).Some? ==> NameOf(GetRetailerHandler(name).value) == ToLower(name)
  {
    RegistryIsExact();
  }

  /** The registry holds exactly the four handlers, each under its own name. */
  lemma RegistryIsExact()
    ensures Registry.Keys == {"amazon", "walmart", "homedepot", "lowes"}
    ensures forall h :: NameOf(h) in Registry && Registry[NameOf(h)] == h
    ensures forall name :: name in Registry ==> NameOf(Registry[name]) == name
  {
  }

  /** A handler's name, in any case, finds that handler. */
  lemma NameFindsHandler(h: Handler, name: string)
    requires ToLower(name) == NameOf(h)
    ensures GetRetailerHandler(name) == Some(h)
  {
    assert !Contains(name, "://") by {
      ContainsLowerNoLetters(name, "://");
      if Contains(ToLower(name), "://") {
        ContainsHead(NameOf(h), "://");
        assert false;
      }
    }
    RegistryIsExact();
  }

  /** Lower-casing the input first changes nothing. */
  lemma CaseInsensitive(nameOrUrl: string)
    ensures GetRetailerHandler(ToLower(nameOrUrl)) == GetRetailerHandler(nameOrUrl)
  {
    var lower := ToLower(nameOrUrl);
    ContainsLowerNoLetters(nameOrUrl, "://");
    LowerIdempotent(nameOrUrl);
    assert ToLower(lower) == lower;
    if Contains(nameOrUrl, "://") {
      assert Contains(lower, "://");
    } else {
      assert !Contains(lower, "://");
    }
  }

  /** A handler's own product pages are dispatched to it, unless the URL also mentions a
      domain checked earlier. */
  predicate IsProductPageOf(h: Handler, url: string) {
    match h
    case AmazonRetailer => Amazon.IsProductPage(url)
    case WalmartRetailer => Walmart.IsProductPage(url)
    case HomeDepotRetailer => HomeDepot.IsProductPage(url)
    case LowesRetailer => Lowes.IsProductPage(url)
  }

  lemma ProductPageDispatch(h: Handler, url: string)
    requires Contains(url, "://") && IsProductPageOf(h, url)
    ensures GetRetailerHandler(url).Some? && Rank(GetRetailerHandler(url).value) <= Rank(h)
    ensures (forall g :: Rank(g) < Rank(h) ==> !Contains(ToLower(url), DomainOf(g))) ==>
      GetRetailerHandler(url) == Some(h)
  {
    var lower := ToLower(url);
    ProductPageMentionsDomain(h, url);
    UrlDispatchIsFirstMatch(url);
    assert GetRetailerHandler(url).Some? by {
      assert Contains(lower, DomainOf(h));
    }
    var r := GetRetailerHandler(url).value;
    assert FirstMentioned(lower, r);
    if (forall g :: Rank(g) < Rank(h) ==> !Contains(lower, DomainOf(g))) {
      DispatchToFirst(url, h);
    }
  }

  /** A handler's product page mentions that handler's domain. */
  lemma ProductPageMentionsDomain(h: Handler, url: string)
    requires IsProductPageOf(h, url)
    ensures Contains(ToLower(url), DomainOf(h))
  {
    match h
    case AmazonRetailer =>
    case WalmartRetailer =>
    case HomeDepotRetailer =>
    case LowesRetailer =>
  }

  /** The search URL each handler builds, and the fixed text it starts with. */
  function SearchUrl(h: Handler, query: string): string {
    match h
    case AmazonRetailer => Amazon.BuildSearchUrl(query)
    case WalmartRetailer => Walmart.BuildSearchUrl(query)
    case HomeDepotRetailer => HomeDepot.BuildSearchUrl(query)
    case LowesRetailer => Lowes.BuildSearchUrl(query)
  }

  /** The scheme and host every search URL starts with. */
  function Head(h: Handler): string {
    "https://www." + DomainOf(h)
  }

  /** The fixed text each handler's search URL starts with. */
  function SearchPrefixOf(h: Handler): string {
    match h
    case AmazonRetailer => Amazon.SearchPrefix
    case WalmartRetailer => Walmart.SearchPrefix
    case HomeDepotRetailer => HomeDepot.SearchPrefix
    case LowesRetailer => Lowes.SearchPrefix
  }

  lemma PrefixHead(h: Handler)
    ensures StartsWith(SearchPrefixOf(h), Head(h))
  {
    match h
    case AmazonRetailer => AmazonPrefixHead();
    case WalmartRetailer => WalmartPrefixHead();
    case HomeDepotRetailer => HomeDepotPrefixHead();
    case LowesRetailer => LowesPrefixHead();
  }

  lemma AmazonPrefixHead() ensures StartsWith(Amazon.SearchPrefix, Head(AmazonRetailer)) {
    assert Amazon.SearchPrefix[..22] == Head(AmazonRetailer);
  }

  lemma WalmartPrefixHead() ensures StartsWith(Walmart.SearchPrefix, Head(WalmartRetailer)) {
    assert Walmart.SearchPrefix[..23] == Head(WalmartRetailer);
  }

  lemma HomeDepotPrefixHead() ensures StartsWith(HomeDepot.SearchPrefix, Head(HomeDepotRetailer)) {
    assert HomeDepot.SearchPrefix[..25] == Head(HomeDepotRetailer);
  }

  lemma LowesPrefixHead() ensures StartsWith(Lowes.SearchPrefix, Head(LowesRetailer)) {
    assert Lowes.SearchPrefix[..21] == Head(LowesRetailer);
  }

  /** Every search URL starts with its handler's scheme and host. */
  lemma SearchUrlHead(h: Handler, query: string)
    ensures StartsWith(SearchUrl(h, query), Head(h))
  {
    assert StartsWith(SearchUrl(h, query), SearchPrefixOf(h));
    PrefixHead(h);
    StartsWithTransitive(SearchUrl(h, query), SearchPrefixOf(h), Head(h));
  }

  lemma StartsWithTransitive(s: string, p: string, q: string)
    requires StartsWith(s, p) && StartsWith(p, q)
    ensures StartsWith(s, q)
  {
    assert s[..|q|] == s[..|p|][..|q|];
  }

  /** The head is lower case, marks a URL and names the handler's domain. */
  lemma HeadFacts(h: Handler)
    ensures IsLowerCase(Head(h)) && Contains(Head(h), "://") && Contains(Head(h), DomainOf(h))
  {
    HeadLowerCase(h);
    HeadMentions(h);
  }

  lemma HeadLowerCase(h: Handler)
    ensures IsLowerCase(Head(h))
  {
    var p := Head(h);
    assert IsLowerCase("https://www.");
    forall i | 0 <= i < |p| ensures !IsUpperLetter(p[i]) {
      if i >= 12 {
        assert p[i] == DomainOf(h)[i - 12];
      }
    }
  }

  lemma HeadMentions(h: Handler)
    ensures Contains(Head(h), "://") && Contains(Head(h), DomainOf(h))
  {
    var p := Head(h);
    assert p[5..8] == "://";
    ContainsAt(p, "://", 5);
    assert p[12..] == DomainOf(h);
    ContainsAt(p, DomainOf(h), 12);
  }

  /** Lower-casing keeps a lower-case prefix. */
  lemma LowerKeepsPrefix(s: string, p: string)
    requires StartsWith(s, p) && IsLowerCase(p)
    ensures StartsWith(ToLower(s), p)
  {
    assert s == p + s[|p|..];
    LowerConcat(p, s[|p|..]);
    LowerOfLowerCase(p);
  }

  /** What the lower-cased tail of a string mentions, the lower-cased string mentions. */
  lemma LowerTailMentions(s: string, n: nat, t: string)
    requires n <= |s| && Contains(ToLower(s[n..]), t)
    ensures Contains(ToLower(s), t)
  {
    assert s == s[..n] + s[n..];
    LowerConcat(s[..n], s[n..]);
    ContainsConcat(ToLower(s[n..]), ToLower(s[..n]), t);
  }

  /** A handler's search URL is dispatched back to that handler, unless the query names a
      domain checked earlier in the if-chain. */
  lemma SearchUrlDispatches(h: Handler, query: string)
    requires forall g :: Rank(g) < Rank(h) ==> !Contains(ToLower(SearchUrl(h, query)), DomainOf(g))
    ensures GetRetailerHandler(SearchUrl(h, query)) == Some(h)
  {
    var url, p := SearchUrl(h, query), Head(h);
    SearchUrlHead(h, query);
    HeadFacts(h);
    ContainsInPrefix(url, p, "://");
    LowerKeepsPrefix(url, p);
    ContainsInPrefix(ToLower(url), p, DomainOf(h));
    DispatchToFirst(url, h);
  }

  /** The URL tests look at the whole URL: a Walmart search for a query naming amazon.com
      is dispatched to Amazon. */
  lemma WalmartSearchNamingAmazon(query: string)
    requires ' ' !in query && Contains(ToLower(query), "amazon.com")
    ensures GetRetailerHandler(Walmart.BuildSearchUrl(query)) == Some(AmazonRetailer)
  {
    var url := Walmart.BuildSearchUrl(query);
    SearchUrlHead(WalmartRetailer, query);
    HeadFacts(WalmartRetailer);
    ContainsInPrefix(url, Head(WalmartRetailer), "://");
    TailIsQuery(url, |Walmart.SearchPrefix|, query);
    LowerTailMentions(url, |Walmart.SearchPrefix|, "amazon.com");
    DispatchToFirst(url, AmazonRetailer);
  }

  /** A search URL ends with a query free of spaces as it is. */
  lemma TailIsQuery(url: string, n: nat, query: string)
    requires |url| == n + |query| && ' ' !in query
    requires forall i :: 0 <= i < |query| ==> url[n + i] == (if query[i] == ' ' then '+' else query[i])
    ensures url[n..] == query
  {
    assert forall i :: 0 <= i < |query| ==> url[n..][i] == url[n + i];
  }
}
