/** Collecting listing links from a search result page. The main scraper
    reads one link per listing container and keeps every usable href in page
    order; the test scraper reads every listing link and deduplicates through
    a set, which loses the page order. */
module Harvest {
  import opened Wrappers
  import opened Urls

  /** The links read from the hrefs of the link elements, in page order:
      empty and missing hrefs dropped, site-relative ones resolved. */
  function Harvested(hrefs: seq<Option<string>>): (links: seq<string>)
    ensures |links| <= |hrefs|
    ensures forall k :: 0 <= k < |links| ==> links[k] != ""
    decreases |hrefs|
  {
    if hrefs == [] then []
    else
      var prefix := Harvested(hrefs[..|hrefs| - 1]);
      match UsableHref(hrefs[|hrefs| - 1])
      case Some(url) => prefix + [url]
      case None => prefix
  }

  /** `extract_listing_links_simple` of the main scraper: the loop over the
      containers, given each container's href (None when the container has
      no `a.item-link` or the link has no href). */
  method ExtractListingLinks(hrefs: seq<Option<string>>) returns (links: seq<string>)
    ensures links == Harvested(hrefs)
  {
    links := [];
    for i := 0 to |hrefs|
      invariant links == Harvested(hrefs[..i])
    {
      assert hrefs[..i + 1][..i] == hrefs[..i];
      var href := hrefs[i];
      if href.Some? && href.value != "" {
        links := links + [ResolveHref(href.value)];
      }
    }
    assert hrefs[..|hrefs|] == hrefs;
  }

  /** Harvesting two runs of containers one after the other gives the two
      harvests one after the other: the page order is kept. */
  lemma {:induction false} HarvestedAppend(a: seq<Option<string>>, b: seq<Option<string>>)
    ensures Harvested(a + b) == Harvested(a) + Harvested(b)
    decreases |b|
  {
    if b != [] {
      var b' := b[..|b| - 1];
      assert (a + b)[..|a + b| - 1] == a + b';
      assert (a + b)[|a + b| - 1] == b[|b| - 1];
      HarvestedAppend(a, b');
    } else {
      assert a + b == a;
    }
  }

  /** A link is harvested exactly when some element carries a usable href
      resolving to it. */
  lemma {:induction false} HarvestedMember(hrefs: seq<Option<string>>, url: string)
    ensures url in Harvested(hrefs) <==> exists i :: 0 <= i < |hrefs| && UsableHref(hrefs[i]) == Some(url)
    decreases |hrefs|
  {
    if hrefs != [] {
      var n := |hrefs| - 1;
      HarvestedMember(hrefs[..n], url);
      if exists i :: 0 <= i < n && UsableHref(hrefs[..n][i]) == Some(url) {
        var i :| 0 <= i < n && UsableHref(hrefs[..n][i]) == Some(url);
        assert hrefs[i] == hrefs[..n][i];
      }
      if exists i :: 0 <= i < |hrefs| && UsableHref(hrefs[i]) == Some(url) {
        var i :| 0 <= i < |hrefs| && UsableHref(hrefs[i]) == Some(url);
        if i < n {
          assert hrefs[..n][i] == hrefs[i];
        }
      }
    }
  }

  predicate NoDuplicates(s: seq<string>) {
    forall i, j :: 0 <= i < j < |s| ==> s[i] != s[j]
  }

  /** `extract_listing_links_simple` of the test scraper: every usable
      link, then `list(set(links))`. The order of a Python set is arbitrary,
      so the links are taken out of the set in no particular order. */
  method ExtractUniqueLinks(hrefs: seq<Option<string>>) returns (links: seq<string>)
    ensures NoDuplicates(links)
    ensures forall u :: u in links <==> u in Harvested(hrefs)
  {
    var all := ExtractListingLinks(hrefs);
    var remaining := set u | u in all;
    var found: seq<string> := [];
    while remaining != {}
      invariant NoDuplicates(found)
      invariant forall u :: u in found ==> u !in remaining
      invariant forall u :: u in all <==> u in found || u in remaining
      decreases |remaining|
    {
      var u :| u in remaining;
      found := found + [u];
      remaining := remaining - {u};
    }
    links := found;
  }
}
