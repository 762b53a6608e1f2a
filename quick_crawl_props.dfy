/** What the test scraper's crawl guarantees: at most three pages, at most
    three downloads a page, the processed set is exactly the saved listings,
    each saved where its id says, and none saved twice. */
module QuickCrawlProperties {
  import opened Wrappers
  import opened Urls
  import opened Pagination
  import opened Harvest
  import opened Listing
  import opened QuickCrawl
  import MainCrawl
  import CrawlProperties

  /** The URLs saved so far. */
  function SavedUrls(d: seq<Download>): set<string>
    decreases |d|
  {
    if d == [] then {}
    else SavedUrls(d[..|d| - 1]) + (if d[|d| - 1].saved.Some? then {d[|d| - 1].url} else {})
  }

  lemma {:induction false} SavedUrlsMember(d: seq<Download>, u: string)
    ensures u in SavedUrls(d) <==> exists i :: 0 <= i < |d| && d[i].saved.Some? && d[i].url == u
    decreases |d|
  {
    if d != [] {
      var init := d[..|d| - 1];
      SavedUrlsMember(init, u);
      if u in SavedUrls(init) {
        var i :| 0 <= i < |init| && init[i].saved.Some? && init[i].url == u;
        assert d[i] == init[i];
      }
      if exists i :: 0 <= i < |d| && d[i].saved.Some? && d[i].url == u {
        var i :| 0 <= i < |d| && d[i].saved.Some? && d[i].url == u;
        if i < |init| {
          assert init[i] == d[i];
        }
      }
    }
  }

  /** Every saved file is `listings/<id>.html` under the query's folder, for
      the id derived from the listing URL. */
  predicate SavedWhereExpected(t: Target, d: seq<Download>) {
    forall i :: 0 <= i < |d| && d[i].saved.Some? ==>
      d[i].saved.value == HtmlPath(t.runPath, t.operation, t.propertyType, City, ListingId(d[i].url, t.hash))
  }

  /** No listing is loaded again after it was saved. */
  predicate NoRedownload(d: seq<Download>) {
    forall i, j :: 0 <= i < j < |d| && d[i].saved.Some? ==> d[j].url != d[i].url
  }

  /** What holds at every loop head. */
  predicate Consistent(t: Target, s: QuickState) {
    s.processed == SavedUrls(s.downloads) && SavedWhereExpected(t, s.downloads) && NoRedownload(s.downloads)
  }

  lemma DownloadOneConsistent(t: Target, ok: (string, nat) -> bool, u: string, s: QuickState)
    requires Consistent(t, s) && u !in s.processed
    ensures Consistent(t, DownloadOne(t, ok, u, s))
  {
    var r := DownloadOne(t, ok, u, s);
    var d := s.downloads;
    assert r.downloads[..|r.downloads| - 1] == d;
    forall i, j | 0 <= i < j < |r.downloads| && r.downloads[i].saved.Some?
      ensures r.downloads[j].url != r.downloads[i].url
    {
      if j < |d| {
        assert r.downloads[i] == d[i] && r.downloads[j] == d[j];
      } else {
        assert r.downloads[i] == d[i];
        SavedUrlsMember(d, d[i].url);
      }
    }
  }

  /** One page's downloads keep the loop-head facts, when the batch lists no
      link twice and none was processed before. */
  lemma {:induction false} DownloadAllConsistent(t: Target, ok: (string, nat) -> bool, links: seq<string>, s: QuickState)
    requires Consistent(t, s) && NoDuplicates(links)
    requires forall u :: u in links ==> u !in s.processed
    ensures var r := DownloadAll(t, ok, links, s);
      && Consistent(t, r)
      && (forall u :: u in r.processed ==> u in s.processed || u in links)
    decreases |links|
  {
    if links != [] {
      var init := links[..|links| - 1];
      var last := links[|links| - 1];
      assert NoDuplicates(init) by {
        forall i, j | 0 <= i < j < |init|
          ensures init[i] != init[j]
        {
          assert init[i] == links[i] && init[j] == links[j];
        }
      }
      forall u | u in init
        ensures u in links
      {
        var k :| 0 <= k < |init| && init[k] == u;
        assert links[k] == u;
      }
      DownloadAllConsistent(t, ok, init, s);
      var prev := DownloadAll(t, ok, init, s);
      CrawlProperties.LastNotEarlier(links);
      assert last in links;
      DownloadOneConsistent(t, ok, last, prev);
    }
  }

  /** The first new links of a page: distinct when the page's links are,
      and none processed before. */
  lemma BatchFresh(links: seq<string>, processed: set<string>)
    requires NoDuplicates(links)
    ensures var batch := FirstFew(MainCrawl.NewLinks(links, processed));
      && NoDuplicates(batch)
      && forall u :: u in batch ==> u in links && u !in processed
  {
    var all := MainCrawl.NewLinks(links, processed);
    var batch := FirstFew(all);
    CrawlProperties.NewLinksDistinct(links, processed);
    forall i, j | 0 <= i < j < |batch|
      ensures batch[i] != batch[j]
    {
      assert batch[i] == all[i] && batch[j] == all[j];
    }
    forall u | u in batch
      ensures u in links && u !in processed
    {
      var k :| 0 <= k < |batch| && batch[k] == u;
      assert all[k] == u;
      CrawlProperties.NewLinksMember(links, processed, u);
    }
  }

  /** `extract_listing_links_simple` never returns a link twice. */
  ghost predicate DistinctLinks(site: QuickSite) {
    forall url: string, n: nat :: NoDuplicates(site.links(url, n))
  }

  /** One page keeps the loop-head facts, when it lists no link twice. */
  lemma PageConsistent(site: QuickSite, t: Target, s: QuickState)
    requires Consistent(t, s) && NoDuplicates(site.links(s.currentUrl, s.pageNum))
    ensures Consistent(t, PageDone(site, t, s))
  {
    var links := site.links(s.currentUrl, s.pageNum);
    var loaded := s.(visited := s.visited + [s.currentUrl]);
    BatchFresh(links, s.processed);
    DownloadAllConsistent(t, site.downloadOk, FirstFew(MainCrawl.NewLinks(links, s.processed)), loaded);
  }

  lemma {:induction false} LoopFromConsistent(site: QuickSite, next: (string, nat) -> Option<string>,
                                              t: Target, s: QuickState)
    requires DistinctLinks(site) && Consistent(t, s)
    ensures Consistent(t, LoopFrom(site, next, t, s))
    decreases MaxPages + 1 - s.pageNum
  {
    if Running(s) {
      var loaded := s.(visited := s.visited + [s.currentUrl]);
      if site.links(s.currentUrl, s.pageNum) != [] {
        var done := PageDone(site, t, s);
        assert Consistent(t, done) by {
          PageConsistent(site, t, s);
        }
        var nextUrl := next(s.currentUrl, s.pageNum);
        if nextUrl.Some? && nextUrl.value != "" && nextUrl.value != s.currentUrl {
          var moved := done.(currentUrl := nextUrl.value, pageNum := s.pageNum + 1);
          assert LoopFrom(site, next, t, s) == LoopFrom(site, next, t, moved);
          LoopFromConsistent(site, next, t, moved);
        } else {
          assert LoopFrom(site, next, t, s) == done;
        }
      } else {
        assert LoopFrom(site, next, t, s) == loaded;
      }
    }
  }

  /** When the link extraction never repeats a link, the processed set is
      exactly the listings saved, each is saved under its listing id, and a
      saved listing is never loaded again. */
  lemma LisbonOnlyDownloads(site: QuickSite, runPath: string, hash: string -> int,
                            operations: seq<string>, propertyTypes: seq<string>, m: UrlMapping)
    requires DistinctLinks(site)
    ensures var r := LisbonOnly(site, runPath, hash, operations, propertyTypes, m);
      r.Ok? ==>
        && r.value.processed == SavedUrls(r.value.downloads)
        && SavedWhereExpected(Target(runPath, operations[0], propertyTypes[0], hash), r.value.downloads)
        && NoRedownload(r.value.downloads)
  {
    if operations != [] && propertyTypes != [] && BuildUrl(m, operations[0], propertyTypes[0], City).Ok? {
      var t := Target(runPath, operations[0], propertyTypes[0], hash);
      LoopFromConsistent(site, Pager(site), t, StartAt(BuildUrl(m, operations[0], propertyTypes[0], City).value));
    }
  }

  /** Consecutive pages differ, and each is what the pagination lookup of
      the page before it returned. */
  predicate Linked(next: (string, nat) -> Option<string>, v: seq<string>) {
    forall k :: 0 <= k < |v| - 1 ==> v[k] != v[k + 1] && next(v[k], k + 1) == Some(v[k + 1])
  }

  predicate AtHead(next: (string, nat) -> Option<string>, s: QuickState) {
    s.pageNum == |s.visited| + 1 && s.pageNum <= MaxPages + 1
    && |s.downloads| <= PerPage * |s.visited|
    && Linked(next, s.visited + [s.currentUrl])
  }

  lemma MoveKeepsHead(next: (string, nat) -> Option<string>, s: QuickState, url: string, done: QuickState)
    requires AtHead(next, s) && Running(s)
    requires done.visited == s.visited + [s.currentUrl] && done.pageNum == s.pageNum
    requires |done.downloads| <= |s.downloads| + PerPage
    requires url != s.currentUrl && next(s.currentUrl, s.pageNum) == Some(url)
    ensures AtHead(next, done.(currentUrl := url, pageNum := s.pageNum + 1))
  {
    var v := s.visited + [s.currentUrl];
    var v' := v + [url];
    forall k | 0 <= k < |v'| - 1
      ensures v'[k] != v'[k + 1] && next(v'[k], k + 1) == Some(v'[k + 1])
    {
      if k < |v| - 1 {
        assert v'[k] == v[k] && v'[k + 1] == v[k + 1];
      }
    }
  }

  lemma {:induction false} LoopFromPages(site: QuickSite, next: (string, nat) -> Option<string>, t: Target, s: QuickState)
    requires AtHead(next, s)
    ensures var f := LoopFrom(site, next, t, s);
      && |f.visited| <= MaxPages
      && |f.downloads| <= PerPage * |f.visited|
      && Linked(next, f.visited)
    decreases MaxPages + 1 - s.pageNum
  {
    var v := s.visited + [s.currentUrl];
    if !Running(s) {
      var w := v[..|s.visited|];
      assert w == s.visited;
      forall k | 0 <= k < |w| - 1
        ensures w[k] != w[k + 1] && next(w[k], k + 1) == Some(w[k + 1])
      {
        assert w[k] == v[k] && w[k + 1] == v[k + 1];
      }
    } else if site.links(s.currentUrl, s.pageNum) != [] {
      var done := PageDone(site, t, s);
      var nextUrl := next(s.currentUrl, s.pageNum);
      if nextUrl.Some? && nextUrl.value != "" && nextUrl.value != s.currentUrl {
        MoveKeepsHead(next, s, nextUrl.value, done);
        LoopFromPages(site, next, t, done.(currentUrl := nextUrl.value, pageNum := s.pageNum + 1));
      }
    }
  }

  /** The crawl loads at most three result pages, downloads at most three
      listings on each, and each move follows `get_next_page_simple` on the
      page before to a different URL. */
  lemma LisbonOnlyPages(site: QuickSite, runPath: string, hash: string -> int,
                        operations: seq<string>, propertyTypes: seq<string>, m: UrlMapping)
    ensures var r := LisbonOnly(site, runPath, hash, operations, propertyTypes, m);
      r.Ok? ==>
        && |r.value.visited| <= MaxPages
        && |r.value.downloads| <= PerPage * |r.value.visited|
        && forall k :: 0 <= k < |r.value.visited| - 1 ==>
             r.value.visited[k] != r.value.visited[k + 1]
             && NextPageSimple(site.find(r.value.visited[k], k + 1)) == Some(r.value.visited[k + 1])
  {
    if operations != [] && propertyTypes != [] && BuildUrl(m, operations[0], propertyTypes[0], City).Ok? {
      var t := Target(runPath, operations[0], propertyTypes[0], hash);
      LoopFromPages(site, Pager(site), t, StartAt(BuildUrl(m, operations[0], propertyTypes[0], City).value));
      var v := LisbonOnly(site, runPath, hash, operations, propertyTypes, m).value.visited;
      forall k | 0 <= k < |v| - 1
        ensures v[k] != v[k + 1] && NextPageSimple(site.find(v[k], k + 1)) == Some(v[k + 1])
      {
        assert Pager(site)(v[k], k + 1) == NextPageSimple(site.find(v[k], k + 1));
      }
    }
  }

  /** The loop heads from `s` on at which a result page is loaded, in
      crawl order. */
  function Heads(site: QuickSite, next: (string, nat) -> Option<string>, t: Target, s: QuickState): (h: seq<QuickState>)
    ensures |h| > 0 <==> Running(s)
    ensures |h| > 0 ==> h[0] == s
    decreases MaxPages + 1 - s.pageNum
  {
    if !Running(s) then []
    else if site.links(s.currentUrl, s.pageNum) == [] then [s]
    else
      var done := PageDone(site, t, s);
      var nextUrl := next(s.currentUrl, s.pageNum);
      if nextUrl.Some? && nextUrl.value != "" && nextUrl.value != s.currentUrl then
        [s] + Heads(site, next, t, done.(currentUrl := nextUrl.value, pageNum := s.pageNum + 1))
      else [s]
  }

  /** The downloads `after` a page loaded at head `h` are those before it,
      then one download for each link of the page's batch, in order. */
  predicate PageDownloads(site: QuickSite, h: QuickState, after: seq<Download>) {
    var batch := Batch(site, h);
    |after| == |h.downloads| + |batch| && after[..|h.downloads|] == h.downloads
    && forall i :: 0 <= i < |batch| ==> after[|h.downloads| + i].url == batch[i]
  }

  /** The crawl from `s` ends in `f` having loaded one page at each head
      of `h`: the k-th head's URL is the k-th page loaded from `s` on, at
      page number `s.pageNum + k`, and the downloads split into one segment
      per page. */
  predicate Traced(site: QuickSite, s: QuickState, h: seq<QuickState>, f: QuickState) {
    && |f.visited| == |s.visited| + |h| && f.visited[..|s.visited|] == s.visited
    && (forall k :: 0 <= k < |h| ==> h[k].currentUrl == f.visited[|s.visited| + k] && h[k].pageNum == s.pageNum + k)
    && (forall k :: 0 <= k < |h| - 1 ==> PageDownloads(site, h[k], h[k + 1].downloads))
    && (|h| > 0 ==> PageDownloads(site, h[|h| - 1], f.downloads))
    && (|h| == 0 ==> f == s)
  }

  /** A page loaded at `s`, followed by the pages from the head it moves to. */
  lemma TracedCons(site: QuickSite, s: QuickState, moved: QuickState, rest: seq<QuickState>, h: seq<QuickState>, f: QuickState)
    requires Traced(site, moved, rest, f) && (|rest| > 0 ==> rest[0] == moved) && h == [s] + rest
    requires moved.visited == s.visited + [s.currentUrl] && moved.pageNum == s.pageNum + 1
    requires PageDownloads(site, s, moved.downloads)
    ensures Traced(site, s, h, f)
  {
    assert f.visited[..|s.visited|] == f.visited[..|moved.visited|][..|s.visited|];
    forall k | 0 <= k < |h|
      ensures h[k].currentUrl == f.visited[|s.visited| + k] && h[k].pageNum == s.pageNum + k
    {
      if k == 0 {
        assert f.visited[..|moved.visited|][|s.visited|] == s.currentUrl;
      } else {
        assert h[k] == rest[k - 1];
      }
    }
    forall k | 0 <= k < |h| - 1
      ensures PageDownloads(site, h[k], h[k + 1].downloads)
    {
      if k > 0 {
        assert h[k] == rest[k - 1] && h[k + 1] == rest[k];
      }
    }
  }

  /** A crawl that stops after the page loaded at `s`. */
  lemma TracedOne(site: QuickSite, s: QuickState, h: seq<QuickState>, f: QuickState)
    requires h == [s] && f.visited == s.visited + [s.currentUrl] && PageDownloads(site, s, f.downloads)
    ensures Traced(site, s, h, f)
  {
    assert f.visited[..|s.visited|] == s.visited;
  }

  /** A page's download loop appends one download per batch link. */
  lemma PageDoneDownloads(site: QuickSite, t: Target, s: QuickState)
    ensures var done := PageDone(site, t, s);
      done.visited == s.visited + [s.currentUrl] && done.pageNum == s.pageNum
      && PageDownloads(site, s, done.downloads)
  {
    DownloadAllAppends(t, site.downloadOk, Batch(site, s), s.(visited := s.visited + [s.currentUrl]));
  }

  /** The condition under which the crawl moves on from `s` after its page. */
  predicate Moves(site: QuickSite, next: (string, nat) -> Option<string>, s: QuickState) {
    var nextUrl := next(s.currentUrl, s.pageNum);
    Running(s) && site.links(s.currentUrl, s.pageNum) != []
    && nextUrl.Some? && nextUrl.value != "" && nextUrl.value != s.currentUrl
  }

  /** A page without links: the crawl stops after loading it. */
  lemma BatchesEmptyPage(site: QuickSite, next: (string, nat) -> Option<string>, t: Target, s: QuickState,
                         h: seq<QuickState>, f: QuickState)
    requires Running(s) && site.links(s.currentUrl, s.pageNum) == []
    requires h == Heads(site, next, t, s) && f == LoopFrom(site, next, t, s)
    ensures Traced(site, s, h, f)
  {
    assert f == s.(visited := s.visited + [s.currentUrl]) && h == [s];
    assert PageDownloads(site, s, f.downloads) by {
      assert Batch(site, s) == [];
    }
    TracedOne(site, s, h, f);
  }

  /** A page with links and no usable next page: the crawl stops after its
      downloads. */
  lemma BatchesLastPage(site: QuickSite, next: (string, nat) -> Option<string>, t: Target, s: QuickState,
                        h: seq<QuickState>, f: QuickState)
    requires Running(s) && site.links(s.currentUrl, s.pageNum) != [] && !Moves(site, next, s)
    requires h == Heads(site, next, t, s) && f == LoopFrom(site, next, t, s)
    ensures Traced(site, s, h, f)
  {
    PageDoneDownloads(site, t, s);
    assert f == PageDone(site, t, s) && h == [s];
    TracedOne(site, s, h, f);
  }

  /** Where the crawl goes from `s` when it moves on: the head of the next
      page, after this page's downloads. */
  lemma MoveStep(site: QuickSite, next: (string, nat) -> Option<string>, t: Target, s: QuickState)
    returns (moved: QuickState)
    requires Moves(site, next, s)
    ensures moved.visited == s.visited + [s.currentUrl] && moved.pageNum == s.pageNum + 1
    ensures PageDownloads(site, s, moved.downloads)
    ensures Heads(site, next, t, s) == [s] + Heads(site, next, t, moved)
    ensures LoopFrom(site, next, t, s) == LoopFrom(site, next, t, moved)
  {
    moved := PageDone(site, t, s).(currentUrl := next(s.currentUrl, s.pageNum).value, pageNum := s.pageNum + 1);
    PageDoneDownloads(site, t, s);
  }

  /** A page with links and a next page: its downloads, then the crawl from
      the next page. */
  lemma {:induction false} BatchesMove(site: QuickSite, next: (string, nat) -> Option<string>, t: Target, s: QuickState,
                                       h: seq<QuickState>, f: QuickState)
    requires Moves(site, next, s)
    requires h == Heads(site, next, t, s) && f == LoopFrom(site, next, t, s)
    ensures Traced(site, s, h, f)
    decreases MaxPages + 1 - s.pageNum, 0
  {
    var moved := MoveStep(site, next, t, s);
    var rest := Heads(site, next, t, moved);
    LoopFromBatches(site, next, t, moved, rest, f);
    TracedCons(site, s, moved, rest, h, f);
  }

  /** The loop heads `h` of the crawl from `s` to its result `f` trace it. */
  lemma {:induction false} LoopFromBatches(site: QuickSite, next: (string, nat) -> Option<string>, t: Target, s: QuickState,
                                           h: seq<QuickState>, f: QuickState)
    requires h == Heads(site, next, t, s) && f == LoopFrom(site, next, t, s)
    ensures Traced(site, s, h, f)
    decreases MaxPages + 1 - s.pageNum, 1
  {
    if !Running(s) {
      assert h == [] && f == s;
    } else if site.links(s.currentUrl, s.pageNum) == [] {
      BatchesEmptyPage(site, next, t, s, h, f);
    } else if Moves(site, next, s) {
      BatchesMove(site, next, t, s, h, f);
    } else {
      BatchesLastPage(site, next, t, s, h, f);
    }
  }

  /** `process_lisbon_only` loads one page per loop head, at page numbers
      1, 2, ..., starting with nothing processed or downloaded, and on each
      page downloads exactly the first three links not processed before
      it. */
  lemma LisbonOnlyBatches(site: QuickSite, runPath: string, hash: string -> int,
                          operations: seq<string>, propertyTypes: seq<string>, m: UrlMapping)
    ensures var r := LisbonOnly(site, runPath, hash, operations, propertyTypes, m);
      r.Ok? ==>
        var start := StartAt(BuildUrl(m, operations[0], propertyTypes[0], City).value);
        && start.visited == [] && start.pageNum == 1 && start.downloads == [] && start.processed == {}
        && Traced(site, start, Heads(site, Pager(site), Target(runPath, operations[0], propertyTypes[0], hash), start), r.value)
  {
    var r := LisbonOnly(site, runPath, hash, operations, propertyTypes, m);
    if r.Ok? {
      var t := Target(runPath, operations[0], propertyTypes[0], hash);
      var start := StartAt(BuildUrl(m, operations[0], propertyTypes[0], City).value);
      LoopFromBatches(site, Pager(site), t, start, Heads(site, Pager(site), t, start), r.value);
    }
  }

  /** A page without links ends the crawl before the pagination lookup:
      whatever the next-page elements say, the result is the same. */
  lemma EmptyPageSkipsPagination(site: QuickSite, t: Target, s: QuickState,
                                 next: (string, nat) -> Option<string>, other: (string, nat) -> Option<string>)
    requires Running(s) && site.links(s.currentUrl, s.pageNum) == []
    ensures LoopFrom(site, other, t, s) == LoopFrom(site, next, t, s) == s.(visited := s.visited + [s.currentUrl])
  {
  }
}
