/** The string handling the retailer handlers share: the base domain of a URL, cutting a
    URL at its query or fragment, first-seen de-duplication and Python's `xs[:n]`. */
module Hrefs {
  import opened Wrappers
  import opened Text

  /** `sep.join(parts)` */
  function Join(sep: string, parts: seq<string>): string
    decreases |parts|
  {
    if parts == [] then ""
    else if |parts| == 1 then parts[0]
    else parts[0] + sep + Join(sep, parts[1..])
  }

  /** The query with every blank spelt `rep`, one character at a time. */
  function SpacesSpelt(query: string, rep: string): (r: string)
    ensures ' ' !in rep ==> ' ' !in r
    decreases |query|
  {
    if query == [] then []
    else (if query[0] == ' ' then rep else [query[0]]) + SpacesSpelt(query[1..], rep)
  }

  /** `query.replace(' ', rep)` spells each blank `rep` and keeps every other character. */
  lemma {:induction false} ReplaceBlank(query: string, rep: string)
    ensures ReplaceAll(query, " ", rep) == SpacesSpelt(query, rep)
    decreases |query|
  {
    if query != [] {
      ReplaceBlank(query[1..], rep);
      assert query[..1] == " " <==> query[0] == ' ';
    }
  }

  /** With a one-character spelling, each position keeps its character, a blank swapped. */
  lemma {:induction false} SpeltCharwise(query: string, c: char)
    ensures |SpacesSpelt(query, [c])| == |query|
    ensures forall i :: 0 <= i < |query| ==>
      SpacesSpelt(query, [c])[i] == (if query[i] == ' ' then c else query[i])
    decreases |query|
  {
    if query != [] {
      SpeltCharwise(query[1..], c);
      var r := SpacesSpelt(query, [c]);
      forall i | 1 <= i < |query| ensures r[i] == (if query[i] == ' ' then c else query[i]) {
        assert r[i] == SpacesSpelt(query[1..], [c])[i - 1];
        assert query[1..][i - 1] == query[i];
      }
    }
  }

  /** Decoding the spelling restores the query, provided the query never holds the
      spelling's first character. */
  lemma {:induction false} SpeltRoundTrip(query: string, rep: string)
    requires |rep| > 0 && rep[0] !in query
    ensures ReplaceAll(SpacesSpelt(query, rep), rep, " ") == query
    decreases |query|
  {
    if query != [] {
      var rest := SpacesSpelt(query[1..], rep);
      SpeltRoundTrip(query[1..], rep);
      var s := SpacesSpelt(query, rep);
      if query[0] == ' ' {
        assert s == rep + rest;
        assert s[..|rep|] == rep && s[|rep|..] == rest;
      } else {
        assert s == [query[0]] + rest;
        assert s[1..] == rest;
        if |s| < |rep| {
          assert |rest| < |rep|;
          assert query[1..] == [] || ReplaceAll(rest, rep, " ") == rest;
          assert s == [query[0]] + query[1..];
        } else {
          assert s[..|rep|][0] == query[0] != rep[0];
        }
      }
    }
  }

  /** A search URL: `prefix`, then `query.replace(' ', rep)`. */
  function SearchUrlOf(prefix: string, query: string, rep: string): (url: string)
    ensures |url| >= |prefix| && url[..|prefix|] == prefix
    ensures url[|prefix|..] == SpacesSpelt(query, rep)
    ensures ' ' !in prefix && ' ' !in rep ==> ' ' !in url
  {
    ReplaceBlank(query, rep);
    var url := prefix + ReplaceAll(query, " ", rep);
    assert url[..|prefix|] == prefix && url[|prefix|..] == SpacesSpelt(query, rep);
    url
  }

  /** The search term of a search URL decodes back to the query. */
  lemma SearchTermRoundTrip(prefix: string, query: string, rep: string)
    requires |rep| > 0 && rep[0] !in query
    ensures ReplaceAll(SearchUrlOf(prefix, query, rep)[|prefix|..], rep, " ") == query
  {
    SpeltRoundTrip(query, rep);
  }

  /** `split` at the first occurrence of the separator. */
  lemma SplitOnAt(s: string, sep: string, k: int)
    requires |sep| > 0 && k == Find(s, sep) && k >= 0
    ensures SplitOn(s, sep) == [s[..k]] + SplitOn(s[k + |sep|..], sep)
  {
  }

  /** The first part of a split is everything before the first separator. */
  lemma SplitOnHead(s: string, sep: string)
    requires |sep| > 0
    ensures SplitOn(s, sep)[0] == if Find(s, sep) >= 0 then s[..Find(s, sep)] else s
  {
  }

  lemma JoinCons(sep: string, a: string, tail: seq<string>)
    requires |tail| >= 1
    ensures Join(sep, [a] + tail) == a + sep + Join(sep, tail)
  {
    assert ([a] + tail)[1..] == tail;
  }

  /** Splitting and joining on the same separator gives the string back. */
  lemma {:induction false} SplitJoin(s: string, sep: string)
    requires |sep| > 0
    ensures Join(sep, SplitOn(s, sep)) == s
    decreases |s|
  {
    var k := Find(s, sep);
    if k >= 0 {
      var rest := s[k + |sep|..];
      SplitJoin(rest, sep);
      SplitOnAt(s, sep, k);
      JoinCons(sep, s[..k], SplitOn(rest, sep));
      assert s == s[..k] + s[k..k + |sep|] + rest;
    }
  }

  /** Joining the first `n` parts gives a prefix of joining them all. */
  lemma {:induction false} JoinPrefix(sep: string, parts: seq<string>, n: nat)
    requires n <= |parts|
    ensures Join(sep, parts[..n]) <= Join(sep, parts)
    decreases n
  {
    if n >= 2 {
      JoinPrefix(sep, parts[1..], n - 1);
      assert parts[..n][1..] == parts[1..][..n - 1];
    } else if n == 1 && |parts| >= 2 {
      assert parts[..1] == [parts[0]];
    }
  }

  /** `"/".join(url.split("/")[:3])` */
  function BaseDomain(url: string): (d: string)
    ensures d <= url
  {
    var parts := SplitOn(url, "/");
    SplitJoin(url, "/");
    JoinPrefix("/", parts, if |parts| < 3 then |parts| else 3);
    Join("/", parts[..if |parts| < 3 then |parts| else 3])
  }

  /** `/` first occurs in `a + "/" + b` right after `a` when `a` holds none. */
  lemma FindSlash(a: string, b: string)
    requires '/' !in a
    ensures Find(a + "/" + b, "/") == |a|
  {
    var s := a + "/" + b;
    assert OccursAt(s, "/", |a|) by {
      assert s[|a|..|a| + 1] == "/";
    }
    forall j | 0 <= j < |a| ensures !OccursAt(s, "/", j) {
      assert s[j..j + 1] == [a[j]];
    }
  }

  /** Splitting on `/` a string whose first slash follows `a`. */
  lemma SplitSlashHead(a: string, b: string)
    requires '/' !in a
    ensures SplitOn(a + "/" + b, "/") == [a] + SplitOn(b, "/")
  {
    FindSlash(a, b);
    SplitOnAt(a + "/" + b, "/", |a|);
    assert (a + "/" + b)[..|a|] == a && (a + "/" + b)[|a| + 1..] == b;
  }

  /** The base domain joins the first three parts of the split. */
  lemma BaseDomainThree(url: string, parts: seq<string>)
    requires parts == SplitOn(url, "/") && |parts| >= 3
    ensures BaseDomain(url) == parts[0] + "/" + parts[1] + "/" + parts[2]
  {
    assert parts[..3] == [parts[0], parts[1], parts[2]];
    JoinCons("/", parts[0], [parts[1], parts[2]]);
    JoinCons("/", parts[1], [parts[2]]);
  }

  /** For `scheme://host/path` the base domain is `scheme://host`. */
  lemma BaseDomainOf(scheme: string, host: string, path: string)
    requires '/' !in scheme && '/' !in host
    ensures BaseDomain(scheme + "//" + host + "/" + path) == scheme + "//" + host
  {
    var url := scheme + "//" + host + "/" + path;
    var parts := SplitOn(url, "/");
    SplitSchemeHost(scheme, host, path);
    BaseDomainThree(url, parts);
    DoubleSlash(scheme, host);
  }

  /** The first three parts of `scheme://host/path` split on `/`. */
  lemma SplitSchemeHost(scheme: string, host: string, path: string)
    requires '/' !in scheme && '/' !in host
    ensures var parts := SplitOn(scheme + "//" + host + "/" + path, "/");
      |parts| >= 3 && parts[0] == scheme && parts[1] == "" && parts[2] == host
  {
    var rest2 := host + "/" + path;
    var rest1 := "" + "/" + rest2;
    assert scheme + "//" + host + "/" + path == scheme + "/" + rest1;
    SplitSlashHead(host, path);
    SplitSlashHead("", rest2);
    SplitSlashHead(scheme, rest1);
  }

  lemma DoubleSlash(scheme: string, host: string)
    ensures scheme + "/" + "" + "/" + host == scheme + "//" + host
  {
  }

  /** `s.split('?')[0].split('#')[0]`: the URL without its query and fragment. */
  function StripQueryAndFragment(s: string): (r: string)
    ensures r <= s && '?' !in r && '#' !in r
  {
    Before(Before(s, '?'), '#')
  }

  /** Cutting `page?rest` at its query gives `page` back. */
  lemma CutAtQuery(page: string, rest: string)
    requires '?' !in page
    ensures Before(page + "?" + rest, '?') == page
    ensures '#' !in page ==> StripQueryAndFragment(page + "?" + rest) == page
  {
    var s := page + "?" + rest;
    var r := Before(s, '?');
    assert s[|page|] == '?';
    assert r == s[..|page|] == page;
  }

  /** A prefix free of `?` and `#` survives the cut. */
  lemma StripKeepsPrefix(s: string, p: string)
    requires StartsWith(s, p) && '?' !in p && '#' !in p
    ensures StartsWith(Before(s, '?'), p)
    ensures StartsWith(StripQueryAndFragment(s), p)
  {
    BeforeKeepsPrefix(s, p, '?');
    BeforeKeepsPrefix(Before(s, '?'), p, '#');
  }

  /** A relative link starting with `marker`, cut at its query (and fragment), keeps the
      marker once put on the base domain. */
  lemma RelativeLinkOnBase(href: string, baseDomain: string, marker: string)
    requires StartsWith(href, marker) && '?' !in marker && '#' !in marker
    ensures Contains(baseDomain + Before(href, '?'), marker)
    ensures Contains(baseDomain + StripQueryAndFragment(href), marker)
  {
    StripKeepsPrefix(href, marker);
    ContainsPrefix(Before(href, '?'), marker);
    ContainsConcat(Before(href, '?'), baseDomain, marker);
    ContainsPrefix(StripQueryAndFragment(href), marker);
    ContainsConcat(StripQueryAndFragment(href), baseDomain, marker);
  }

  lemma {:induction false} BeforeKeepsPrefix(s: string, p: string, c: char)
    requires StartsWith(s, p) && c !in p
    ensures StartsWith(Before(s, c), p)
    decreases |p|
  {
    if p != [] {
      assert s[0] == p[0];
      BeforeKeepsPrefix(s[1..], p[1..], c);
      assert s[1..][..|p| - 1] == s[..|p|][1..];
    }
  }

  /** A URL already free of a query and a fragment is left as it is. */
  lemma StripQueryAndFragmentIdempotent(s: string)
    ensures StripQueryAndFragment(StripQueryAndFragment(s)) == StripQueryAndFragment(s)
  {
    var r := StripQueryAndFragment(s);
    assert Before(r, '?') == r;
    assert Before(r, '#') == r;
  }

  /** The distinct elements of `xs` in the order each is first seen: what a loop keeping
      a list together with a `seen` set collects. */
  function FirstSeen(xs: seq<string>): (r: seq<string>)
    ensures |r| <= |xs|
    ensures forall x :: x in r <==> x in xs
    ensures forall i, j :: 0 <= i < j < |r| ==> r[i] != r[j]
    decreases |xs|
  {
    if xs == [] then []
    else
      var n := |xs| - 1;
      var earlier := FirstSeen(xs[..n]);
      assert forall x :: x in xs <==> x in xs[..n] || x == xs[n] by {
        assert xs == xs[..n] + [xs[n]];
      }
      if xs[n] in earlier then earlier else earlier + [xs[n]]
  }

  /** The index where `x` first occurs in `xs`. */
  function IndexOf(xs: seq<string>, x: string): (i: nat)
    requires x in xs
    ensures i < |xs| && xs[i] == x && x !in xs[..i]
  {
    if xs[0] == x then 0
    else
      var i := IndexOf(xs[1..], x);
      assert xs[..i + 1] == [xs[0]] + xs[1..][..i];
      i + 1
  }

  /** The first occurrence of `x` in `xs + ys` is its first occurrence in `xs`. */
  lemma IndexOfAppend(xs: seq<string>, ys: seq<string>, x: string)
    requires x in xs
    ensures IndexOf(xs + ys, x) == IndexOf(xs, x)
  {
    var i := IndexOf(xs, x);
    var k := IndexOf(xs + ys, x);
    assert (xs + ys)[..i] == xs[..i];
    assert (xs + ys)[i] == x;
  }

  /** `FirstSeen` lists its elements in the order of their first occurrences. */
  lemma {:induction false} FirstSeenOrder(xs: seq<string>)
    ensures forall i, j :: 0 <= i < j < |FirstSeen(xs)| ==>
      IndexOf(xs, FirstSeen(xs)[i]) < IndexOf(xs, FirstSeen(xs)[j])
    decreases |xs|
  {
    if xs != [] {
      var n := |xs| - 1;
      var earlier := FirstSeen(xs[..n]);
      FirstSeenOrder(xs[..n]);
      assert xs == xs[..n] + [xs[n]];
      forall x | x in earlier ensures IndexOf(xs, x) == IndexOf(xs[..n], x) {
        IndexOfAppend(xs[..n], [xs[n]], x);
      }
      if xs[n] !in earlier {
        var r := earlier + [xs[n]];
        assert xs[n] !in xs[..n];
        assert IndexOf(xs, xs[n]) == n;
        forall i | 0 <= i < |earlier| ensures IndexOf(xs, r[i]) < n {
          assert r[i] == earlier[i] && earlier[i] in earlier;
        }
      }
    }
  }

  /** A list without repeats is its own first-seen list. */
  lemma {:induction false} FirstSeenDistinct(xs: seq<string>)
    requires forall i, j :: 0 <= i < j < |xs| ==> xs[i] != xs[j]
    ensures FirstSeen(xs) == xs
    decreases |xs|
  {
    if xs != [] {
      var n := |xs| - 1;
      FirstSeenDistinct(xs[..n]);
      assert xs == xs[..n] + [xs[n]];
    }
  }

  /** De-duplicating twice is de-duplicating once. */
  lemma FirstSeenIdempotent(xs: seq<string>)
    ensures FirstSeen(FirstSeen(xs)) == FirstSeen(xs)
  {
    FirstSeenDistinct(FirstSeen(xs));
  }

  /** One more element for the first-seen list. */
  lemma FirstSeenSnoc(xs: seq<string>, x: string)
    ensures FirstSeen(xs + [x]) == if x in FirstSeen(xs) then FirstSeen(xs) else FirstSeen(xs) + [x]
  {
    assert (xs + [x])[..|xs|] == xs;
  }

  /** De-duplicating a prefix gives a prefix of de-duplicating the whole list. */
  lemma {:induction false} FirstSeenPrefix(xs: seq<string>, ys: seq<string>)
    requires xs <= ys
    ensures FirstSeen(xs) <= FirstSeen(ys)
    decreases |ys|
  {
    if |xs| < |ys| {
      var n := |ys| - 1;
      assert xs <= ys[..n];
      FirstSeenPrefix(xs, ys[..n]);
    } else {
      assert xs == ys;
    }
  }

  /** `if url not in seen_urls: urls.append(url); seen_urls.add(url)`, for a list that
      so far holds the first-seen elements of `xs`. */
  method AppendUnseen(ghost xs: seq<string>, urls: seq<string>, seen: set<string>, x: string)
    returns (urls': seq<string>, seen': set<string>)
    requires urls == FirstSeen(xs) && seen == set u | u in urls
    ensures x in seen ==> urls' == urls && seen' == seen
    ensures x !in seen ==> urls' == urls + [x] && seen' == seen + {x}
    ensures urls' == FirstSeen(xs + [x]) && seen' == set u | u in urls'
  {
    FirstSeenSnoc(xs, x);
    urls', seen' := urls, seen;
    if x !in seen {
      urls' := urls + [x];
      seen' := seen + {x};
    }
  }

  /** The URL the raw-HTML regex fallback of a retailer builds from one match: the match
      cut at its query and fragment, put on the base domain unless it starts with `http`. */
  function FallbackUrl(m: string, baseDomain: string): string {
    if StartsWith(m, "http") then StripQueryAndFragment(m)
    else baseDomain + StripQueryAndFragment(m)
  }

  /** The fallback URLs of all matches, in order. */
  function FallbackUrls(matches: seq<string>, baseDomain: string): (r: seq<string>)
    ensures |r| == |matches|
    decreases |matches|
  {
    if matches == [] then []
    else
      var n := |matches| - 1;
      FallbackUrls(matches[..n], baseDomain) + [FallbackUrl(matches[n], baseDomain)]
  }

  /** On a base domain free of `?` and `#`, no fallback URL has either. */
  lemma {:induction false} FallbackUrlsClean(matches: seq<string>, baseDomain: string)
    requires '?' !in baseDomain && '#' !in baseDomain
    ensures forall u :: u in FallbackUrls(matches, baseDomain) ==> '?' !in u && '#' !in u
    decreases |matches|
  {
    if matches != [] {
      var n := |matches| - 1;
      FallbackUrlsClean(matches[..n], baseDomain);
    }
  }

  lemma FallbackUrlsSnoc(matches: seq<string>, i: nat, baseDomain: string)
    requires i < |matches|
    ensures FallbackUrls(matches[..i + 1], baseDomain)
      == FallbackUrls(matches[..i], baseDomain) + [FallbackUrl(matches[i], baseDomain)]
  {
    assert matches[..i + 1][..i] == matches[..i];
  }

  /** The regex fallback loop over the matches. */
  /** One pass of a link loop: a link that gave a URL has it appended when unseen, a link
      that gave nothing changes nothing. */
  method CollectStep(ghost cands: seq<Option<string>>, i: nat, urls: seq<string>, seen: set<string>, url: Option<string>)
    returns (urls': seq<string>, seen': set<string>)
    requires i < |cands| && url == cands[i]
    requires urls == FirstSeen(Present(cands[..i])) && seen == set u | u in urls
    ensures url.None? ==> urls' == urls && seen' == seen
    ensures url.Some? && url.value in seen ==> urls' == urls && seen' == seen
    ensures url.Some? && url.value !in seen ==> urls' == urls + [url.value] && seen' == seen + {url.value}
    ensures urls' == FirstSeen(Present(cands[..i + 1])) && seen' == set u | u in urls'
  {
    PresentSnoc(cands, i);
    urls', seen' := urls, seen;
    if url.Some? {
      assert Present(cands[..i + 1]) == Present(cands[..i]) + [url.value];
      urls', seen' := AppendUnseen(Present(cands[..i]), urls, seen, url.value);
    } else {
      assert Present(cands[..i + 1]) == Present(cands[..i]);
    }
  }

  method CollectFallback(matches: seq<string>, baseDomain: string) returns (urls: seq<string>, seen: set<string>)
    ensures urls == FirstSeen(FallbackUrls(matches, baseDomain))
    ensures seen == set u | u in urls
  {
    urls, seen := [], {};
    for i := 0 to |matches|
      invariant urls == FirstSeen(FallbackUrls(matches[..i], baseDomain))
      invariant seen == set u | u in urls
    {
      FallbackUrlsSnoc(matches, i, baseDomain);
      var m := matches[i];
      var url := if StartsWith(m, "http") then StripQueryAndFragment(m) else baseDomain + StripQueryAndFragment(m);
      urls, seen := AppendUnseen(FallbackUrls(matches[..i], baseDomain), urls, seen, url);
    }
    assert matches[..|matches|] == matches;
  }

  /** The values of the `Some` entries, in order. */
  function Present(xs: seq<Option<string>>): (r: seq<string>)
    ensures |r| <= |xs|
    ensures forall x :: x in r <==> Some(x) in xs
    decreases |xs|
  {
    if xs == [] then []
    else
      var n := |xs| - 1;
      assert forall o :: o in xs <==> o in xs[..n] || o == xs[n] by {
        assert xs == xs[..n] + [xs[n]];
      }
      match xs[n]
      case Some(x) => Present(xs[..n]) + [x]
      case None => Present(xs[..n])
  }

  lemma {:induction false} PresentPrefix(xs: seq<Option<string>>, ys: seq<Option<string>>)
    requires xs <= ys
    ensures Present(xs) <= Present(ys)
    decreases |ys|
  {
    if |xs| < |ys| {
      var n := |ys| - 1;
      assert xs <= ys[..n];
      PresentPrefix(xs, ys[..n]);
      PresentGrows(ys);
      PrefixTransitive(Present(xs), Present(ys[..n]), Present(ys));
    } else {
      assert xs == ys;
    }
  }

  /** Dropping the last entry keeps a prefix of what is present. */
  lemma PresentGrows(ys: seq<Option<string>>)
    requires ys != []
    ensures Present(ys[..|ys| - 1]) <= Present(ys)
  {
  }

  lemma PrefixTransitive(a: seq<string>, b: seq<string>, c: seq<string>)
    requires a <= b && b <= c
    ensures a <= c
  {
    assert c[..|a|] == c[..|b|][..|a|];
  }

  lemma PresentSnoc(xs: seq<Option<string>>, i: nat)
    requires i < |xs|
    ensures Present(xs[..i + 1]) == Present(xs[..i]) + (if xs[i].Some? then [xs[i].value] else [])
  {
    assert xs[..i + 1][..i] == xs[..i];
  }

  /** Python's `xs[:n]`: a negative `n` counts from the end. */
  function SliceTo(xs: seq<string>, n: int): (r: seq<string>)
    ensures r <= xs
    ensures n >= 0 ==> |r| == if n < |xs| then n else |xs|
    ensures n < 0 ==> |r| == if |xs| + n > 0 then |xs| + n else 0
  {
    if n >= 0 then (if n < |xs| then xs[..n] else xs)
    else if |xs| + n > 0 then xs[..|xs| + n] else []
  }
  /** Cutting a list at the length of one of its prefixes gives that prefix. */
  lemma SliceToPrefix(xs: seq<string>, ys: seq<string>, n: int)
    requires xs <= ys && |xs| == n
    ensures SliceTo(ys, n) == xs
  {
    assert ys[..n] == xs;
  }

}
