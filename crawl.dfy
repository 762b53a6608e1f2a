/** The main scraper's crawl (`process_lisbon_apartments`): walk the result
    pages from the Lisbon search page, extract every listing not yet
    processed, and follow the next-page link, for at most 100 pages. */
module MainCrawl {
  import opened Wrappers
  import opened Urls
  import opened Harvest
  import opened Pagination

  const MaxPages := 100

  /** What the site answers, as seen by the crawl. Each answer may depend on
      the page number as well as the URL, so a revisited page may differ:
      - `containers`: the href of each listing container on a result page;
      - `nextHrefs`: what each next-page locator reads once a result page's
        extractions are done, on the page the driver then shows: the last
        listing page loaded, or the result page when no listing was tried;
      - `extractOk`: whether `extract_listing_data` succeeds for a listing,
        given how many extractions came before. */
  datatype Site = Site(
    containers: (string, nat) -> seq<Option<string>>,
    nextHrefs: (string, nat) -> (Strategy -> Option<string>),
    extractOk: (string, nat) -> bool)

  /** One call of `extract_listing_data` and its result. */
  datatype Attempt = Attempt(url: string, success: bool)

  /** The loop variables of the crawl, and the history of the calls it made:
      every listing extraction and every result page loaded. */
  datatype CrawlState = CrawlState(
    currentUrl: string,
    pageNum: nat,
    processed: set<string>,
    total: nat,
    attempts: seq<Attempt>,
    visited: seq<string>)

  /** How the crawl ends: normally, or with the `AttributeError` raised by
      the call to `get_next_page_simple`, which this class does not define. */
  datatype Status = Finished | MissingMethodRaised

  /** `[link for link in links if link not in processed]`. */
  function NewLinks(links: seq<string>, processed: set<string>): (r: seq<string>)
    ensures |r| <= |links|
    decreases |links|
  {
    if links == [] then []
    else
      var last := links[|links| - 1];
      NewLinks(links[..|links| - 1], processed) + (if last in processed then [] else [last])
  }

  /** One extraction: a success adds the URL to the processed set and counts
      it; either way the call is recorded. */
  function Extract(extractOk: (string, nat) -> bool, url: string, s: CrawlState): CrawlState {
    var ok := extractOk(url, |s.attempts|);
    s.(processed := if ok then s.processed + {url} else s.processed,
       total := if ok then s.total + 1 else s.total,
       attempts := s.attempts + [Attempt(url, ok)])
  }

  /** The `for` loop over the new links of one page. */
  function ExtractAll(extractOk: (string, nat) -> bool, links: seq<string>, s: CrawlState): (r: CrawlState)
    ensures r.currentUrl == s.currentUrl && r.pageNum == s.pageNum && r.visited == s.visited
    ensures |r.attempts| == |s.attempts| + |links|
    decreases |links|
  {
    if links == [] then s
    else Extract(extractOk, links[|links| - 1], ExtractAll(extractOk, links[..|links| - 1], s))
  }

  /** The loop keeps the earlier attempts and appends one attempt per link,
      in the order of the links. */
  lemma {:induction false} ExtractAllAppends(extractOk: (string, nat) -> bool, links: seq<string>, s: CrawlState)
    ensures var r := ExtractAll(extractOk, links, s);
      && r.attempts[..|s.attempts|] == s.attempts
      && forall i :: 0 <= i < |links| ==> r.attempts[|s.attempts| + i].url == links[i]
    decreases |links|
  {
    if links != [] {
      var init := links[..|links| - 1];
      ExtractAllAppends(extractOk, init, s);
      var prev := ExtractAll(extractOk, init, s);
      var r := ExtractAll(extractOk, links, s);
      assert r.attempts == prev.attempts + [r.attempts[|r.attempts| - 1]];
      assert r.attempts[..|s.attempts|] == prev.attempts[..|s.attempts|];
      forall i | 0 <= i < |links|
        ensures r.attempts[|s.attempts| + i].url == links[i]
      {
        if i < |init| {
          assert r.attempts[|s.attempts| + i] == prev.attempts[|s.attempts| + i];
        }
      }
    }
  }

  /** The loop condition `current_url and page_num <= max_pages`. */
  predicate Running(s: CrawlState) {
    s.currentUrl != "" && s.pageNum <= MaxPages
  }

  /** The crawl from a loop head on. */
  function CrawlFrom(site: Site, s: CrawlState): (Status, CrawlState)
    decreases MaxPages + 1 - s.pageNum
  {
    if !Running(s) then (Finished, s)
    else
      var loaded := s.(visited := s.visited + [s.currentUrl]);
      var links := Harvested(site.containers(s.currentUrl, s.pageNum));
      if links == [] then (MissingMethodRaised, loaded)
      else
        var done := ExtractAll(site.extractOk, NewLinks(links, s.processed), loaded);
        var next := NextPageReliable(site.nextHrefs(s.currentUrl, s.pageNum));
        if next.Some? && next.value != "" && next.value != s.currentUrl then
          CrawlFrom(site, done.(currentUrl := next.value, pageNum := s.pageNum + 1))
        else (Finished, done)
  }

  const Start := CrawlState(LisbonSearchUrl, 1, {}, 0, [], [])

  /** The whole crawl, from the first result page. */
  function Crawl(site: Site): (Status, CrawlState) {
    CrawlFrom(site, Start)
  }

  /** The loop over one page's new links: each is extracted in turn, and a
      success adds it to the processed set and to the count. */
  method ExtractNewLinks(extractOk: (string, nat) -> bool, newLinks: seq<string>, s: CrawlState)
    returns (processedLinks: set<string>, totalListings: nat, attempts: seq<Attempt>)
    ensures s.(processed := processedLinks, total := totalListings, attempts := attempts)
      == ExtractAll(extractOk, newLinks, s)
  {
    processedLinks, totalListings, attempts := s.processed, s.total, s.attempts;
    for i := 0 to |newLinks|
      invariant s.(processed := processedLinks, total := totalListings, attempts := attempts)
        == ExtractAll(extractOk, newLinks[..i], s)
    {
      assert newLinks[..i + 1][..i] == newLinks[..i];
      var success := extractOk(newLinks[i], |attempts|);
      attempts := attempts + [Attempt(newLinks[i], success)];
      if success {
        processedLinks := processedLinks + {newLinks[i]};
        totalListings := totalListings + 1;
      }
    }
    assert newLinks[..|newLinks|] == newLinks;
  }

  /** A page without listing links ends the crawl with the missing-method
      error, once loaded. */
  lemma EmptyPageRaises(site: Site, s: CrawlState)
    requires Running(s) && Harvested(site.containers(s.currentUrl, s.pageNum)) == []
    ensures CrawlFrom(site, s) == (MissingMethodRaised, s.(visited := s.visited + [s.currentUrl]))
  {
  }

  /** The condition under which the crawl moves on from `s` after its page. */
  predicate Moves(site: Site, s: CrawlState) {
    var next := NextPageReliable(site.nextHrefs(s.currentUrl, s.pageNum));
    Running(s) && Harvested(site.containers(s.currentUrl, s.pageNum)) != []
    && next.Some? && next.value != "" && next.value != s.currentUrl
  }

  /** A page with listing links and no usable next page ends the crawl after
      its extractions. */
  lemma LastPageFinishes(site: Site, s: CrawlState)
    requires Running(s) && Harvested(site.containers(s.currentUrl, s.pageNum)) != [] && !Moves(site, s)
    ensures CrawlFrom(site, s) == (Finished, ExtractAll(site.extractOk,
      NewLinks(Harvested(site.containers(s.currentUrl, s.pageNum)), s.processed), s.(visited := s.visited + [s.currentUrl])))
  {
  }

  /** The loop head the crawl moves to from `s`: the page's extractions
      done, the next page's URL and number. */
  function NextHead(site: Site, s: CrawlState): (moved: CrawlState)
    requires Moves(site, s)
    ensures moved.visited == s.visited + [s.currentUrl] && moved.pageNum == s.pageNum + 1
  {
    ExtractAll(site.extractOk, NewLinks(Harvested(site.containers(s.currentUrl, s.pageNum)), s.processed),
      s.(visited := s.visited + [s.currentUrl])).(currentUrl := NextPageReliable(site.nextHrefs(s.currentUrl, s.pageNum)).value,
                                                  pageNum := s.pageNum + 1)
  }

  /** A page with listing links and a usable next page: the crawl goes on
      from the next page's head. */
  lemma NextPageContinues(site: Site, s: CrawlState)
    requires Moves(site, s)
    ensures CrawlFrom(site, s) == CrawlFrom(site, NextHead(site, s))
  {
  }

  /** `process_lisbon_apartments`, returning `total_listings`. */
  method ProcessLisbonApartments(site: Site, mapping: UrlMapping) returns (status: Status, totalListings: nat)
    ensures status == Crawl(site).0 && totalListings == Crawl(site).1.total
  {
    var currentUrl := BuildUrlFixed(mapping, "sale", "apartments", "lisbon");
    var pageNum := 1;
    var processedLinks: set<string> := {};
    totalListings := 0;
    var attempts: seq<Attempt> := [];
    var visited: seq<string> := [];
    ghost var head := Start;
    while currentUrl != "" && pageNum <= MaxPages
      invariant 1 <= pageNum <= MaxPages + 1
      invariant head == CrawlState(currentUrl, pageNum, processedLinks, totalListings, attempts, visited)
      invariant Crawl(site) == CrawlFrom(site, head)
      decreases MaxPages + 1 - pageNum
    {
      visited := visited + [currentUrl];
      var listingLinks := ExtractListingLinks(site.containers(currentUrl, pageNum));
      if listingLinks == [] {
        EmptyPageRaises(site, head);
        return MissingMethodRaised, totalListings;
      }
      var newLinks := NewLinks(listingLinks, processedLinks);
      var loaded := CrawlState(currentUrl, pageNum, processedLinks, totalListings, attempts, visited);
      processedLinks, totalListings, attempts := ExtractNewLinks(site.extractOk, newLinks, loaded);
      var nextUrl := NextPageReliable(site.nextHrefs(currentUrl, pageNum));
      if nextUrl.Some? && nextUrl.value != "" && nextUrl.value != currentUrl {
        NextPageContinues(site, head);
        currentUrl := nextUrl.value;
        pageNum := pageNum + 1;
        head := NextHead(site, head);
      } else {
        LastPageFinishes(site, head);
        return Finished, totalListings;
      }
    }
    return Finished, totalListings;
  }
}
