/** The test scraper's crawl (`process_lisbon_only`): the first operation
    and property type for Lisbon, at most three result pages, and on each
    page at most the first three listings not yet downloaded. */
module QuickCrawl {
  import opened Wrappers
  import opened Urls
  import opened Pagination
  import opened Listing
  import MainCrawl

  const MaxPages := 3
  const PerPage := 3
  const City := "lisbon"

  /** What the site answers, as seen by this crawl:
      - `links`: what `extract_listing_links_simple` returns on a result page
        (its deduplicated harvest, in the order the set gave it; [] when the
        listings never appear);
      - `find`: the element each pagination selector finds once a result
        page's downloads are done, on the page the driver then shows: the
        last listing page loaded, or the result page when none was tried;
      - `downloadOk`: whether loading and saving a listing goes through,
        given how many downloads came before. */
  datatype QuickSite = QuickSite(
    links: (string, nat) -> seq<string>,
    find: (string, nat) -> (string -> Option<NextButton>),
    downloadOk: (string, nat) -> bool)

  /** A listing this crawl loaded, and the file it saved, if any. */
  datatype Download = Download(url: string, saved: Option<string>)

  /** Where a download lands: the run folder, the query names, and the
      listing id derived from the URL. */
  datatype Target = Target(runPath: string, operation: string, propertyType: string, hash: string -> int)

  datatype QuickState = QuickState(
    currentUrl: string,
    pageNum: nat,
    processed: set<string>,
    downloads: seq<Download>,
    visited: seq<string>)

  /** Why the crawl cannot start: an empty configuration list, or a name the
      URL mapping lacks. */
  datatype Failure = IndexError(list: string) | KeyError(key: string)

  /** `new_links[:3]`. */
  function FirstFew(links: seq<string>): (r: seq<string>)
    ensures |r| <= PerPage && |r| <= |links| && r == links[..|r|]
    ensures |links| >= PerPage ==> |r| == PerPage
    ensures |links| < PerPage ==> r == links
  {
    if |links| <= PerPage then links else links[..PerPage]
  }

  /** One call of `download_single_listing`; a success adds the URL to the
      processed set. */
  function DownloadOne(t: Target, ok: (string, nat) -> bool, url: string, s: QuickState): QuickState {
    var saved := DownloadSingleListing(url, t.operation, t.propertyType, City, t.runPath, t.hash,
                                       ok(url, |s.downloads|));
    s.(processed := if saved.Some? then s.processed + {url} else s.processed,
       downloads := s.downloads + [Download(url, saved)])
  }

  /** The `for` loop over one page's first new links. */
  function DownloadAll(t: Target, ok: (string, nat) -> bool, links: seq<string>, s: QuickState): (r: QuickState)
    ensures r.currentUrl == s.currentUrl && r.pageNum == s.pageNum && r.visited == s.visited
    ensures |r.downloads| == |s.downloads| + |links|
    decreases |links|
  {
    if links == [] then s
    else DownloadOne(t, ok, links[|links| - 1], DownloadAll(t, ok, links[..|links| - 1], s))
  }

  /** The loop keeps the earlier downloads and appends one download per
      link, in the order of the links. */
  lemma {:induction false} DownloadAllAppends(t: Target, ok: (string, nat) -> bool, links: seq<string>, s: QuickState)
    ensures var r := DownloadAll(t, ok, links, s);
      && r.downloads[..|s.downloads|] == s.downloads
      && forall i :: 0 <= i < |links| ==> r.downloads[|s.downloads| + i].url == links[i]
    decreases |links|
  {
    if links != [] {
      var init := links[..|links| - 1];
      DownloadAllAppends(t, ok, init, s);
      var prev := DownloadAll(t, ok, init, s);
      var r := DownloadAll(t, ok, links, s);
      assert r.downloads == prev.downloads + [r.downloads[|r.downloads| - 1]];
      assert r.downloads[..|s.downloads|] == prev.downloads[..|s.downloads|];
      forall i | 0 <= i < |links|
        ensures r.downloads[|s.downloads| + i].url == links[i]
      {
        if i < |init| {
          assert r.downloads[|s.downloads| + i] == prev.downloads[|s.downloads| + i];
        }
      }
    }
  }

  /** The loop condition `current_url and page_num <= max_pages`. */
  predicate Running(s: QuickState) {
    s.currentUrl != "" && s.pageNum <= MaxPages
  }

  /** The links a page's download loop goes through: the first three of
      its links not processed before this page. */
  function Batch(site: QuickSite, s: QuickState): (r: seq<string>)
    ensures |r| <= PerPage
  {
    FirstFew(MainCrawl.NewLinks(site.links(s.currentUrl, s.pageNum), s.processed))
  }

  /** A page with links: it is loaded, and its first new links downloaded. */
  function PageDone(site: QuickSite, t: Target, s: QuickState): QuickState {
    DownloadAll(t, site.downloadOk, Batch(site, s), s.(visited := s.visited + [s.currentUrl]))
  }

  /** `get_next_page_simple` on each result page. */
  function Pager(site: QuickSite): (string, nat) -> Option<string> {
    (url: string, n: nat) => NextPageSimple(site.find(url, n))
  }

  /** The crawl from a loop head on, given the pagination lookup of each
      page. A page without links ends it before any pagination lookup. */
  function LoopFrom(site: QuickSite, next: (string, nat) -> Option<string>, t: Target, s: QuickState): QuickState
    decreases MaxPages + 1 - s.pageNum
  {
    if !Running(s) then s
    else
      var loaded := s.(visited := s.visited + [s.currentUrl]);
      var links := site.links(s.currentUrl, s.pageNum);
      if links == [] then loaded
      else
        var done := PageDone(site, t, s);
        var nextUrl := next(s.currentUrl, s.pageNum);
        if nextUrl.Some? && nextUrl.value != "" && nextUrl.value != s.currentUrl then
          LoopFrom(site, next, t, done.(currentUrl := nextUrl.value, pageNum := s.pageNum + 1))
        else done
  }

  function StartAt(url: string): QuickState {
    QuickState(url, 1, {}, [], [])
  }

  /** `process_lisbon_only`: the first operation and the first property type
      (an `IndexError` when a list is empty), the mapped search URL (a
      `KeyError` for a name the mapping lacks), then the crawl. */
  function LisbonOnly(site: QuickSite, runPath: string, hash: string -> int,
                      operations: seq<string>, propertyTypes: seq<string>, m: UrlMapping): (r: Result<QuickState, Failure>)
    ensures r.Err? <==> operations == [] || propertyTypes == [] || BuildUrl(m, operations[0], propertyTypes[0], City).Err?
    ensures r.Err? && operations != [] && propertyTypes != [] ==>
      r.error == KeyError(BuildUrl(m, operations[0], propertyTypes[0], City).error)
  {
    if operations == [] then Err(IndexError("operations"))
    else if propertyTypes == [] then Err(IndexError("property_types"))
    else
      match BuildUrl(m, operations[0], propertyTypes[0], City)
      case Err(key) => Err(KeyError(key))
      case Ok(url) => Ok(LoopFrom(site, Pager(site), Target(runPath, operations[0], propertyTypes[0], hash), StartAt(url)))
  }

  /** The download loop of one page. */
  method DownloadNewLinks(t: Target, ok: (string, nat) -> bool, newLinks: seq<string>, s: QuickState)
    returns (processedLinks: set<string>, downloads: seq<Download>)
    ensures s.(processed := processedLinks, downloads := downloads) == DownloadAll(t, ok, FirstFew(newLinks), s)
  {
    var batch := FirstFew(newLinks);
    processedLinks, downloads := s.processed, s.downloads;
    for i := 0 to |batch|
      invariant s.(processed := processedLinks, downloads := downloads) == DownloadAll(t, ok, batch[..i], s)
    {
      assert batch[..i + 1][..i] == batch[..i];
      var listingUrl := batch[i];
      var saved := DownloadSingleListing(listingUrl, t.operation, t.propertyType, City, t.runPath, t.hash,
                                         ok(listingUrl, |downloads|));
      downloads := downloads + [Download(listingUrl, saved)];
      if saved.Some? {
        processedLinks := processedLinks + {listingUrl};
      }
    }
    assert batch[..|batch|] == batch;
  }

  /** A page without links ends the crawl once it is loaded. */
  lemma EmptyPageEnds(site: QuickSite, next: (string, nat) -> Option<string>, t: Target, s: QuickState)
    requires Running(s) && site.links(s.currentUrl, s.pageNum) == []
    ensures LoopFrom(site, next, t, s) == s.(visited := s.visited + [s.currentUrl])
  {
  }

  /** A page with links and no usable next page ends the crawl after its
      downloads. */
  lemma LastPageEnds(site: QuickSite, next: (string, nat) -> Option<string>, t: Target, s: QuickState)
    requires Running(s) && site.links(s.currentUrl, s.pageNum) != []
    requires var u := next(s.currentUrl, s.pageNum); !(u.Some? && u.value != "" && u.value != s.currentUrl)
    ensures LoopFrom(site, next, t, s) == PageDone(site, t, s)
  {
  }

  /** A page with links and a usable next page: the crawl goes on from the
      next page's head. */
  lemma NextPageContinues(site: QuickSite, next: (string, nat) -> Option<string>, t: Target, s: QuickState)
    returns (moved: QuickState)
    requires Running(s) && site.links(s.currentUrl, s.pageNum) != []
    requires var u := next(s.currentUrl, s.pageNum); u.Some? && u.value != "" && u.value != s.currentUrl
    ensures moved == PageDone(site, t, s).(currentUrl := next(s.currentUrl, s.pageNum).value, pageNum := s.pageNum + 1)
    ensures LoopFrom(site, next, t, s) == LoopFrom(site, next, t, moved)
  {
    moved := PageDone(site, t, s).(currentUrl := next(s.currentUrl, s.pageNum).value, pageNum := s.pageNum + 1);
  }

  /** The `while` loop of `process_lisbon_only`, from its search URL. */
  method CrawlPages(site: QuickSite, t: Target, startUrl: string) returns (s: QuickState)
    ensures s == LoopFrom(site, Pager(site), t, StartAt(startUrl))
  {
    ghost var pager := Pager(site);
    var currentUrl := startUrl;
    var pageNum := 1;
    var processedLinks: set<string> := {};
    var downloads: seq<Download> := [];
    var visited: seq<string> := [];
    ghost var head := StartAt(startUrl);
    while currentUrl != "" && pageNum <= MaxPages
      invariant 1 <= pageNum <= MaxPages + 1
      invariant head == QuickState(currentUrl, pageNum, processedLinks, downloads, visited)
      invariant LoopFrom(site, pager, t, StartAt(startUrl)) == LoopFrom(site, pager, t, head)
      decreases MaxPages + 1 - pageNum
    {
      visited := visited + [currentUrl];
      var listingLinks := site.links(currentUrl, pageNum);
      if listingLinks == [] {
        EmptyPageEnds(site, pager, t, head);
        return QuickState(currentUrl, pageNum, processedLinks, downloads, visited);
      }
      var newLinks := MainCrawl.NewLinks(listingLinks, processedLinks);
      var loaded := QuickState(currentUrl, pageNum, processedLinks, downloads, visited);
      processedLinks, downloads := DownloadNewLinks(t, site.downloadOk, newLinks, loaded);
      ghost var done := PageDone(site, t, head);
      assert done == QuickState(currentUrl, pageNum, processedLinks, downloads, visited) by {
        assert Batch(site, head) == FirstFew(newLinks);
      }
      var nextUrl := GetNextPageSimple(site.find(currentUrl, pageNum));
      assert nextUrl == pager(currentUrl, pageNum);
      if nextUrl.Some? && nextUrl.value != "" && nextUrl.value != currentUrl {
        head := NextPageContinues(site, pager, t, head);
        currentUrl := nextUrl.value;
        pageNum := pageNum + 1;
      } else {
        LastPageEnds(site, pager, t, head);
        return QuickState(currentUrl, pageNum, processedLinks, downloads, visited);
      }
    }
    return QuickState(currentUrl, pageNum, processedLinks, downloads, visited);
  }

  /** `process_lisbon_only`: the configuration lookups, then the loop. */
  method ProcessLisbonOnly(site: QuickSite, runPath: string, hash: string -> int,
                           operations: seq<string>, propertyTypes: seq<string>, m: UrlMapping)
    returns (r: Result<QuickState, Failure>)
    ensures r == LisbonOnly(site, runPath, hash, operations, propertyTypes, m)
  {
    if operations == [] {
      return Err(IndexError("operations"));
    }
    if propertyTypes == [] {
      return Err(IndexError("property_types"));
    }
    var operation := operations[0];
    var propertyType := propertyTypes[0];
    var built := BuildUrl(m, operation, propertyType, City);
    if built.Err? {
      return Err(KeyError(built.error));
    }
    var s := CrawlPages(site, Target(runPath, operation, propertyType, hash), built.value);
    return Ok(s);
  }
}
