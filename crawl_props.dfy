/** What the main crawl guarantees: the pages it loads, how it ends, and
    how `processed_links` and `total_listings` relate to the extractions. */
module CrawlProperties {
  import opened Wrappers
  import opened Urls
  import opened Harvest
  import opened Pagination
  import opened MainCrawl

  /** The URLs whose extraction succeeded. */
  function SuccessUrls(a: seq<Attempt>): set<string>
    decreases |a|
  {
    if a == [] then {}
    else SuccessUrls(a[..|a| - 1]) + (if a[|a| - 1].success then {a[|a| - 1].url} else {})
  }

  /** The number of successful extractions. */
  function SuccessCount(a: seq<Attempt>): nat
    decreases |a|
  {
    if a == [] then 0
    else SuccessCount(a[..|a| - 1]) + (if a[|a| - 1].success then 1 else 0)
  }

  /** The processed set and the count are exactly the successes so far. */
  predicate Accounted(s: CrawlState) {
    s.processed == SuccessUrls(s.attempts) && s.total == SuccessCount(s.attempts)
  }

  lemma {:induction false} ExtractAllAccounted(extractOk: (string, nat) -> bool, links: seq<string>, s: CrawlState)
    requires Accounted(s)
    ensures Accounted(ExtractAll(extractOk, links, s))
    decreases |links|
  {
    if links != [] {
      var prev := ExtractAll(extractOk, links[..|links| - 1], s);
      ExtractAllAccounted(extractOk, links[..|links| - 1], s);
      var next := Extract(extractOk, links[|links| - 1], prev);
      assert next.attempts[..|next.attempts| - 1] == prev.attempts;
    }
  }

  /** Every crawl step keeps the processed set and the count in line with
      the extractions. */
  lemma {:induction false} CrawlFromAccounted(site: Site, s: CrawlState)
    requires Accounted(s)
    ensures Accounted(CrawlFrom(site, s).1)
    decreases MaxPages + 1 - s.pageNum
  {
    if Running(s) {
      var loaded := s.(visited := s.visited + [s.currentUrl]);
      var links := Harvested(site.containers(s.currentUrl, s.pageNum));
      assert Accounted(loaded);
      if links != [] {
        var done := ExtractAll(site.extractOk, NewLinks(links, s.processed), loaded);
        assert Accounted(done) by {
          ExtractAllAccounted(site.extractOk, NewLinks(links, s.processed), loaded);
        }
        var next := NextPageReliable(site.nextHrefs(s.currentUrl, s.pageNum));
        if next.Some? && next.value != "" && next.value != s.currentUrl {
          var moved := done.(currentUrl := next.value, pageNum := s.pageNum + 1);
          assert CrawlFrom(site, s) == CrawlFrom(site, moved);
          CrawlFromAccounted(site, moved);
        } else {
          assert CrawlFrom(site, s).1 == done;
        }
      } else {
        assert CrawlFrom(site, s).1 == loaded;
      }
    }
  }

  /** Distinct URLs never outnumber the successes. */
  lemma {:induction false} SuccessUrlsBound(a: seq<Attempt>)
    ensures |SuccessUrls(a)| <= SuccessCount(a)
    decreases |a|
  {
    if a != [] {
      SuccessUrlsBound(a[..|a| - 1]);
    }
  }

  /** `processed_links` holds exactly the URLs whose extraction returned
      True, and `total_listings` counts those calls; so the count is never
      below the number of processed URLs. */
  lemma CrawlAccounting(site: Site)
    ensures var f := Crawl(site).1;
      && f.processed == SuccessUrls(f.attempts)
      && f.total == SuccessCount(f.attempts)
      && |f.processed| <= f.total
  {
    CrawlFromAccounted(site, Start);
    SuccessUrlsBound(Crawl(site).1.attempts);
  }

  /** Consecutive loaded pages differ, and each is what the next-page lookup
      returned on the page before it (page k + 1 for the k-th URL). */
  predicate Linked(site: Site, v: seq<string>) {
    forall k :: 0 <= k < |v| - 1 ==>
      v[k] != v[k + 1] && NextPageReliable(site.nextHrefs(v[k], k + 1)) == Some(v[k + 1])
  }

  /** At a loop head the page number is one past the pages loaded, and the
      current URL is where the last move led. */
  predicate AtHead(site: Site, s: CrawlState) {
    s.pageNum == |s.visited| + 1 && s.pageNum <= MaxPages + 1 && Linked(site, s.visited + [s.currentUrl])
  }

  lemma LinkedPrefix(site: Site, v: seq<string>, n: nat)
    requires Linked(site, v) && n <= |v|
    ensures Linked(site, v[..n])
  {
    var w := v[..n];
    forall k | 0 <= k < |w| - 1
      ensures w[k] != w[k + 1] && NextPageReliable(site.nextHrefs(w[k], k + 1)) == Some(w[k + 1])
    {
      assert w[k] == v[k] && w[k + 1] == v[k + 1];
    }
  }

  /** Moving to a next-page URL that differs from the current one keeps
      the pages linked. */
  lemma MoveKeepsHead(site: Site, s: CrawlState, next: string, done: CrawlState)
    requires AtHead(site, s) && Running(s)
    requires done.visited == s.visited + [s.currentUrl] && done.pageNum == s.pageNum
    requires next != s.currentUrl && NextPageReliable(site.nextHrefs(s.currentUrl, s.pageNum)) == Some(next)
    ensures AtHead(site, done.(currentUrl := next, pageNum := s.pageNum + 1))
  {
    var v := s.visited + [s.currentUrl];
    var v' := v + [next];
    forall k | 0 <= k < |v'| - 1
      ensures v'[k] != v'[k + 1] && NextPageReliable(site.nextHrefs(v'[k], k + 1)) == Some(v'[k + 1])
    {
      if k < |v| - 1 {
        assert v'[k] == v[k] && v'[k + 1] == v[k + 1];
      }
    }
  }

  lemma {:induction false} CrawlFromPages(site: Site, s: CrawlState)
    requires AtHead(site, s)
    ensures var f := CrawlFrom(site, s).1;
      && |s.visited| <= |f.visited| <= MaxPages
      && f.visited[..|s.visited|] == s.visited
      && (Running(s) ==> |f.visited| > |s.visited| && f.visited[|s.visited|] == s.currentUrl)
      && Linked(site, f.visited)
      && f.pageNum <= MaxPages + 1
    decreases MaxPages + 1 - s.pageNum
  {
    var v := s.visited + [s.currentUrl];
    if !Running(s) {
      LinkedPrefix(site, v, |s.visited|);
      assert v[..|s.visited|] == s.visited;
    } else {
      var links := Harvested(site.containers(s.currentUrl, s.pageNum));
      if links != [] {
        var loaded := s.(visited := v);
        var done := ExtractAll(site.extractOk, NewLinks(links, s.processed), loaded);
        var next := NextPageReliable(site.nextHrefs(s.currentUrl, s.pageNum));
        if next.Some? && next.value != "" && next.value != s.currentUrl {
          var s' := done.(currentUrl := next.value, pageNum := s.pageNum + 1);
          assert CrawlFrom(site, s) == CrawlFrom(site, s');
          MoveKeepsHead(site, s, next.value, done);
          CrawlFromPages(site, s');
          var f := CrawlFrom(site, s').1;
          assert f.visited[..|v|] == v;
          assert f.visited[..|s.visited|] == v[..|s.visited|];
          assert f.visited[|s.visited|] == v[|s.visited|];
        } else {
          assert CrawlFrom(site, s).1 == done;
          LinkedPrefix(site, v, |v|);
          assert v[..|v|] == v;
        }
      } else {
        assert CrawlFrom(site, s).1 == s.(visited := v);
        LinkedPrefix(site, v, |v|);
        assert v[..|v|] == v;
      }
    }
  }

  /** The crawl loads between 1 and 100 result pages, starting with the
      Lisbon search page; each move goes to the next-page URL of the page
      before, which differs from it; the page number ends at most at 101. */
  lemma CrawlPages(site: Site)
    ensures var f := Crawl(site).1;
      && 1 <= |f.visited| <= MaxPages
      && f.visited[0] == LisbonSearchUrl
      && Linked(site, f.visited)
      && f.pageNum <= MaxPages + 1
  {
    CrawlFromPages(site, Start);
  }

  /** Every loaded page but the last had listings. */
  predicate ListingsBeforeLast(site: Site, v: seq<string>) {
    forall k :: 0 <= k < |v| - 1 ==> Harvested(site.containers(v[k], k + 1)) != []
  }

  lemma LoadedHadListings(site: Site, s: CrawlState, next: string)
    requires s.pageNum == |s.visited| + 1 && ListingsBeforeLast(site, s.visited + [s.currentUrl])
    requires Harvested(site.containers(s.currentUrl, s.pageNum)) != []
    ensures ListingsBeforeLast(site, s.visited + [s.currentUrl] + [next])
  {
    var v := s.visited + [s.currentUrl];
    var v' := v + [next];
    forall k | 0 <= k < |v'| - 1
      ensures Harvested(site.containers(v'[k], k + 1)) != []
    {
      assert v'[k] == v[k];
    }
  }

  lemma {:induction false} CrawlFromListings(site: Site, s: CrawlState)
    requires s.pageNum == |s.visited| + 1 && ListingsBeforeLast(site, s.visited + [s.currentUrl])
    ensures ListingsBeforeLast(site, CrawlFrom(site, s).1.visited)
    decreases MaxPages + 1 - s.pageNum
  {
    var v := s.visited + [s.currentUrl];
    if !Running(s) {
      forall k | 0 <= k < |s.visited| - 1
        ensures Harvested(site.containers(s.visited[k], k + 1)) != []
      {
        assert s.visited[k] == v[k];
      }
    } else {
      var links := Harvested(site.containers(s.currentUrl, s.pageNum));
      if links != [] {
        var loaded := s.(visited := v);
        var done := ExtractAll(site.extractOk, NewLinks(links, s.processed), loaded);
        var next := NextPageReliable(site.nextHrefs(s.currentUrl, s.pageNum));
        if next.Some? && next.value != "" && next.value != s.currentUrl {
          var s' := done.(currentUrl := next.value, pageNum := s.pageNum + 1);
          assert CrawlFrom(site, s) == CrawlFrom(site, s');
          LoadedHadListings(site, s, next.value);
          CrawlFromListings(site, s');
        } else {
          assert CrawlFrom(site, s).1 == done;
        }
      } else {
        assert CrawlFrom(site, s).1 == s.(visited := v);
      }
    }
  }

  /** The pages loaded from a loop head on extend those loaded before it,
      starting with the current page. */
  lemma {:induction false} CrawlFromExtends(site: Site, s: CrawlState)
    ensures var f := CrawlFrom(site, s).1;
      && |f.visited| >= |s.visited|
      && f.visited[..|s.visited|] == s.visited
      && (Running(s) ==> |f.visited| > |s.visited| && f.visited[|s.visited|] == s.currentUrl)
    decreases MaxPages + 1 - s.pageNum
  {
    if Running(s) {
      var links := Harvested(site.containers(s.currentUrl, s.pageNum));
      var loaded := s.(visited := s.visited + [s.currentUrl]);
      if links != [] {
        var done := ExtractAll(site.extractOk, NewLinks(links, s.processed), loaded);
        var next := NextPageReliable(site.nextHrefs(s.currentUrl, s.pageNum));
        if next.Some? && next.value != "" && next.value != s.currentUrl {
          var s' := done.(currentUrl := next.value, pageNum := s.pageNum + 1);
          assert CrawlFrom(site, s) == CrawlFrom(site, s');
          CrawlFromExtends(site, s');
          var f := CrawlFrom(site, s').1;
          assert f.visited[..|s.visited|] == f.visited[..|loaded.visited|][..|s.visited|];
          assert f.visited[|s.visited|] == loaded.visited[|s.visited|];
        } else {
          assert CrawlFrom(site, s).1 == done;
          assert done.visited[..|s.visited|] == s.visited;
        }
      } else {
        assert CrawlFrom(site, s).1 == loaded;
        assert loaded.visited[..|s.visited|] == s.visited;
      }
    } else {
      assert s.visited[..|s.visited|] == s.visited;
    }
  }

  /** The crawl stops with the missing-method error exactly when the page it
      loaded last had no listings. */
  lemma {:induction false} CrawlFromRaises(site: Site, s: CrawlState)
    requires s.pageNum == |s.visited| + 1
    ensures var f := CrawlFrom(site, s).1;
      CrawlFrom(site, s).0 == MissingMethodRaised <==>
        |f.visited| > |s.visited| && Harvested(site.containers(f.visited[|f.visited| - 1], |f.visited|)) == []
    decreases MaxPages + 1 - s.pageNum
  {
    if Running(s) {
      var links := Harvested(site.containers(s.currentUrl, s.pageNum));
      var loaded := s.(visited := s.visited + [s.currentUrl]);
      if links != [] {
        var done := ExtractAll(site.extractOk, NewLinks(links, s.processed), loaded);
        var next := NextPageReliable(site.nextHrefs(s.currentUrl, s.pageNum));
        if next.Some? && next.value != "" && next.value != s.currentUrl {
          var s' := done.(currentUrl := next.value, pageNum := s.pageNum + 1);
          assert CrawlFrom(site, s) == CrawlFrom(site, s');
          CrawlFromRaises(site, s');
          CrawlFromExtends(site, s');
          assert |s'.visited| > |s.visited|;
        } else {
          assert CrawlFrom(site, s) == (Finished, done);
          assert done.visited[|done.visited| - 1] == s.currentUrl && |done.visited| == s.pageNum;
        }
      } else {
        assert CrawlFrom(site, s) == (MissingMethodRaised, loaded);
        assert loaded.visited[|loaded.visited| - 1] == s.currentUrl && |loaded.visited| == s.pageNum;
      }
    }
  }

  /** How the crawl ends: every loaded page but the last had listings, and
      the crawl ends with the missing-method error exactly when the last one
      had none. */
  lemma CrawlStatus(site: Site)
    ensures var f := Crawl(site).1;
      && |f.visited| >= 1
      && ListingsBeforeLast(site, f.visited)
      && (Crawl(site).0 == MissingMethodRaised <==> Harvested(site.containers(f.visited[|f.visited| - 1], |f.visited|)) == [])
  {
    CrawlFromListings(site, Start);
    CrawlFromRaises(site, Start);
    CrawlFromPages(site, Start);
  }

  /** A new link is a harvested link not yet processed. */
  lemma {:induction false} NewLinksMember(links: seq<string>, processed: set<string>, u: string)
    ensures u in NewLinks(links, processed) <==> u in links && u !in processed
    decreases |links|
  {
    if links != [] {
      NewLinksMember(links[..|links| - 1], processed, u);
      assert links == links[..|links| - 1] + [links[|links| - 1]];
    }
  }

  /** Filtering keeps the harvest order. */
  lemma {:induction false} NewLinksAppend(a: seq<string>, b: seq<string>, processed: set<string>)
    ensures NewLinks(a + b, processed) == NewLinks(a, processed) + NewLinks(b, processed)
    decreases |b|
  {
    if b == [] {
      assert a + b == a;
    } else {
      assert (a + b)[..|a + b| - 1] == a + b[..|b| - 1];
      NewLinksAppend(a, b[..|b| - 1], processed);
    }
  }

  lemma {:induction false} NewLinksDistinct(links: seq<string>, processed: set<string>)
    requires NoDuplicates(links)
    ensures NoDuplicates(NewLinks(links, processed))
    decreases |links|
  {
    if links != [] {
      var init := links[..|links| - 1];
      var last := links[|links| - 1];
      assert NoDuplicates(init) by {
        forall i, j | 0 <= i < j < |init|
          ensures init[i] != init[j]
        {
          assert init[i] == links[i] && init[j] == links[j];
        }
      }
      NewLinksDistinct(init, processed);
      var r0 := NewLinks(init, processed);
      if last !in processed {
        LastNotEarlier(links);
        NewLinksMember(init, processed, last);
        var r := r0 + [last];
        forall i, j | 0 <= i < j < |r|
          ensures r[i] != r[j]
        {
          if j < |r0| {
            assert r[i] == r0[i] && r[j] == r0[j];
          } else {
            assert r[i] == r0[i] && r0[i] in r0;
          }
        }
      }
    }
  }

  /** In a list without duplicates the last element is not among the
      earlier ones. */
  lemma LastNotEarlier(links: seq<string>)
    requires links != [] && NoDuplicates(links)
    ensures links[|links| - 1] !in links[..|links| - 1]
  {
    var init := links[..|links| - 1];
    forall k | 0 <= k < |init|
      ensures init[k] != links[|links| - 1]
    {
      assert init[k] == links[k];
    }
  }

  /** Extracting distinct links none of which was processed before counts
      each success once: the count grows exactly as the processed set. */
  lemma {:induction false} ExtractAllExact(extractOk: (string, nat) -> bool, links: seq<string>, s: CrawlState)
    requires NoDuplicates(links)
    requires forall u :: u in links ==> u !in s.processed
    ensures var r := ExtractAll(extractOk, links, s);
      && (forall u :: u in r.processed ==> u in s.processed || u in links)
      && r.total + |s.processed| == s.total + |r.processed|
    decreases |links|
  {
    if links != [] {
      var init := links[..|links| - 1];
      var last := links[|links| - 1];
      assert NoDuplicates(init) by {
        forall i, j | 0 <= i < j < |init|
          ensures init[i] != init[j]
        {
          assert init[i] == links[i] && init[j] == links[j];
        }
      }
      forall u | u in init
        ensures u in links
      {
        var k :| 0 <= k < |init| && init[k] == u;
        assert links[k] == u;
      }
      ExtractAllExact(extractOk, init, s);
      var prev := ExtractAll(extractOk, init, s);
      LastNotEarlier(links);
      assert last in links;
      assert last !in prev.processed;
      assert ExtractAll(extractOk, links, s) == Extract(extractOk, last, prev);
    }
  }

  /** No result page lists the same link twice. */
  ghost predicate DistinctHarvests(site: Site) {
    forall url: string, n: nat :: NoDuplicates(Harvested(site.containers(url, n)))
  }

  /** One page's extractions keep the count equal to the number of
      processed URLs, when the page lists no link twice. */
  lemma PageExact(extractOk: (string, nat) -> bool, links: seq<string>, loaded: CrawlState)
    requires NoDuplicates(links) && loaded.total == |loaded.processed|
    ensures var done := ExtractAll(extractOk, NewLinks(links, loaded.processed), loaded);
      done.total == |done.processed|
  {
    var unseen := NewLinks(links, loaded.processed);
    NewLinksDistinct(links, loaded.processed);
    forall u | u in unseen
      ensures u !in loaded.processed
    {
      NewLinksMember(links, loaded.processed, u);
    }
    ExtractAllExact(extractOk, unseen, loaded);
  }

  lemma {:induction false} CrawlFromExact(site: Site, s: CrawlState)
    requires DistinctHarvests(site)
    requires s.total == |s.processed|
    ensures CrawlFrom(site, s).1.total == |CrawlFrom(site, s).1.processed|
    decreases MaxPages + 1 - s.pageNum
  {
    if Running(s) {
      var loaded := s.(visited := s.visited + [s.currentUrl]);
      var links := Harvested(site.containers(s.currentUrl, s.pageNum));
      if links != [] {
        var done := ExtractAll(site.extractOk, NewLinks(links, s.processed), loaded);
        assert done.total == |done.processed| by {
          PageExact(site.extractOk, links, loaded);
        }
        var next := NextPageReliable(site.nextHrefs(s.currentUrl, s.pageNum));
        if next.Some? && next.value != "" && next.value != s.currentUrl {
          var moved := done.(currentUrl := next.value, pageNum := s.pageNum + 1);
          assert CrawlFrom(site, s) == CrawlFrom(site, moved);
          CrawlFromExact(site, moved);
        } else {
          assert CrawlFrom(site, s).1 == done;
        }
      } else {
        assert CrawlFrom(site, s).1 == loaded;
      }
    }
  }

  /** When no page lists a link twice, a listing is never counted twice:
      `total_listings` is the number of distinct processed URLs. */
  lemma CrawlCountsOnce(site: Site)
    requires DistinctHarvests(site)
    ensures Crawl(site).1.total == |Crawl(site).1.processed|
  {
    CrawlFromExact(site, Start);
  }

  /** A site whose first page lists the same listing in two containers and
      has no next page. */
  const RepeatedHref := "/imovel/1/"

  function RepeatingSite(): Site {
    Site((url: string, n: nat) => [Some(RepeatedHref), Some(RepeatedHref)],
         (url: string, n: nat) => (s: Strategy) => None,
         (url: string, n: nat) => true)
  }

  /** Without that assumption a listing can be counted twice: the new links
      are computed once per page, so a link listed twice on one page is
      extracted and counted twice. */
  lemma RepeatedLinkCountedTwice()
    ensures Crawl(RepeatingSite()).1.total == 2
    ensures Crawl(RepeatingSite()).1.processed == {Origin + RepeatedHref}
  {
    var site := RepeatingSite();
    var u := Origin + RepeatedHref;
    RepeatingFirstPage();
    var loaded := Start.(visited := Start.visited + [Start.currentUrl]);
    RepeatingExtractions(loaded);
    assert Running(Start);
    assert CrawlFrom(site, Start) == (Finished, ExtractAll(site.extractOk, [u, u], loaded));
  }

  /** The first page of that site yields the link twice, none of it new to
      the empty processed set, and no next page. */
  lemma RepeatingFirstPage()
    ensures var site := RepeatingSite();
      var u := Origin + RepeatedHref;
      && Harvested(site.containers(Start.currentUrl, Start.pageNum)) == [u, u]
      && NewLinks([u, u], Start.processed) == [u, u]
      && NextPageReliable(site.nextHrefs(Start.currentUrl, Start.pageNum)).None?
  {
    RepeatingHarvest();
    RepeatingNewLinks();
    NextPageReliableNone(RepeatingSite().nextHrefs(LisbonSearchUrl, 1));
  }

  lemma RepeatingHarvest()
    ensures Harvested([Some(RepeatedHref), Some(RepeatedHref)]) == [Origin + RepeatedHref, Origin + RepeatedHref]
  {
    var hrefs := [Some(RepeatedHref), Some(RepeatedHref)];
    assert hrefs[..1] == [Some(RepeatedHref)];
    assert hrefs[..1][..0] == [];
    assert Harvested(hrefs[..1]) == [Origin + RepeatedHref];
  }

  lemma RepeatingNewLinks()
    ensures NewLinks([Origin + RepeatedHref, Origin + RepeatedHref], {}) == [Origin + RepeatedHref, Origin + RepeatedHref]
  {
    var u := Origin + RepeatedHref;
    assert [u, u][..1] == [u];
    assert [u][..0] == [];
    assert NewLinks([u], {}) == [u];
  }

  /** Extracting the link twice, both successfully, counts it twice. */
  lemma RepeatingExtractions(loaded: CrawlState)
    requires loaded.total == 0 && loaded.processed == {}
    ensures var two := ExtractAll(RepeatingSite().extractOk, [Origin + RepeatedHref, Origin + RepeatedHref], loaded);
      two.total == 2 && two.processed == {Origin + RepeatedHref}
  {
    var ok := RepeatingSite().extractOk;
    var u := Origin + RepeatedHref;
    ExtractAllSnoc(ok, [], u, loaded);
    var one := ExtractAll(ok, [u], loaded);
    assert one == Extract(ok, u, loaded);
    ExtractAllSnoc(ok, [u], u, loaded);
    assert ExtractAll(ok, [u, u], loaded) == Extract(ok, u, one);
  }

  lemma ExtractAllSnoc(extractOk: (string, nat) -> bool, links: seq<string>, u: string, s: CrawlState)
    ensures ExtractAll(extractOk, links + [u], s) == Extract(extractOk, u, ExtractAll(extractOk, links, s))
  {
    assert (links + [u])[..|links|] == links;
  }

  /** The links a page's extraction loop goes through: its harvested links
      not processed at its loop head, in harvest order. */
  function Unseen(site: Site, s: CrawlState): seq<string> {
    NewLinks(Harvested(site.containers(s.currentUrl, s.pageNum)), s.processed)
  }

  /** The loop heads from `s` on at which a result page is loaded, in crawl
      order. */
  function Heads(site: Site, s: CrawlState): (h: seq<CrawlState>)
    ensures |h| > 0 <==> Running(s)
    ensures |h| > 0 ==> h[0] == s
    decreases MaxPages + 1 - s.pageNum
  {
    if !Running(s) then []
    else if Moves(site, s) then [s] + Heads(site, NextHead(site, s))
    else [s]
  }

  /** The attempts `after` a page loaded at head `h` are those before it,
      then one extraction for each of the page's unseen links, in order. */
  predicate PageAttempts(site: Site, h: CrawlState, after: seq<Attempt>) {
    var unseen := Unseen(site, h);
    |after| == |h.attempts| + |unseen| && after[..|h.attempts|] == h.attempts
    && forall i :: 0 <= i < |unseen| ==> after[|h.attempts| + i].url == unseen[i]
  }

  /** The crawl from `s` ends in `f` having loaded one page at each head of
      `h`: the k-th head's URL is the k-th page loaded from `s` on, at page
      number `s.pageNum + k`, and the attempts split into one segment per
      page. */
  predicate Traced(site: Site, s: CrawlState, h: seq<CrawlState>, f: CrawlState) {
    && |f.visited| == |s.visited| + |h| && f.visited[..|s.visited|] == s.visited
    && (forall k :: 0 <= k < |h| ==> h[k].currentUrl == f.visited[|s.visited| + k] && h[k].pageNum == s.pageNum + k)
    && (forall k :: 0 <= k < |h| - 1 ==> PageAttempts(site, h[k], h[k + 1].attempts))
    && (|h| > 0 ==> PageAttempts(site, h[|h| - 1], f.attempts))
    && (|h| == 0 ==> f == s)
  }

  /** A page loaded at `s`, followed by the pages from the head it moves to. */
  lemma TracedCons(site: Site, s: CrawlState, moved: CrawlState, rest: seq<CrawlState>, h: seq<CrawlState>, f: CrawlState)
    requires Traced(site, moved, rest, f) && (|rest| > 0 ==> rest[0] == moved) && h == [s] + rest
    requires moved.visited == s.visited + [s.currentUrl] && moved.pageNum == s.pageNum + 1
    requires PageAttempts(site, s, moved.attempts)
    ensures Traced(site, s, h, f)
  {
    assert f.visited[..|s.visited|] == f.visited[..|moved.visited|][..|s.visited|];
    forall k | 0 <= k < |h|
      ensures h[k].currentUrl == f.visited[|s.visited| + k] && h[k].pageNum == s.pageNum + k
    {
      if k == 0 {
        assert f.visited[..|moved.visited|][|s.visited|] == s.currentUrl;
      } else {
        assert h[k] == rest[k - 1];
      }
    }
    forall k | 0 <= k < |h| - 1
      ensures PageAttempts(site, h[k], h[k + 1].attempts)
    {
      if k > 0 {
        assert h[k] == rest[k - 1] && h[k + 1] == rest[k];
      }
    }
  }

  /** A crawl that stops after the page loaded at `s`. */
  lemma TracedOne(site: Site, s: CrawlState, h: seq<CrawlState>, f: CrawlState)
    requires h == [s] && f.visited == s.visited + [s.currentUrl] && PageAttempts(site, s, f.attempts)
    ensures Traced(site, s, h, f)
  {
    assert f.visited[..|s.visited|] == s.visited;
  }

  /** A page's extraction loop appends one attempt per unseen link. */
  lemma PageDoneAttempts(site: Site, s: CrawlState)
    ensures var done := ExtractAll(site.extractOk, Unseen(site, s), s.(visited := s.visited + [s.currentUrl]));
      done.visited == s.visited + [s.currentUrl] && done.pageNum == s.pageNum
      && PageAttempts(site, s, done.attempts)
  {
    ExtractAllAppends(site.extractOk, Unseen(site, s), s.(visited := s.visited + [s.currentUrl]));
  }

  /** A page without listings: the crawl stops after loading it. */
  lemma BatchesEmptyPage(site: Site, s: CrawlState, h: seq<CrawlState>, f: CrawlState)
    requires Running(s) && Harvested(site.containers(s.currentUrl, s.pageNum)) == []
    requires h == Heads(site, s) && f == CrawlFrom(site, s).1
    ensures Traced(site, s, h, f)
  {
    assert f == s.(visited := s.visited + [s.currentUrl]) && h == [s];
    assert PageAttempts(site, s, f.attempts) by {
      assert Unseen(site, s) == [];
    }
    TracedOne(site, s, h, f);
  }

  /** A page with listings and no usable next page: the crawl stops after
      its extractions. */
  lemma BatchesLastPage(site: Site, s: CrawlState, h: seq<CrawlState>, f: CrawlState)
    requires Running(s) && Harvested(site.containers(s.currentUrl, s.pageNum)) != [] && !Moves(site, s)
    requires h == Heads(site, s) && f == CrawlFrom(site, s).1
    ensures Traced(site, s, h, f)
  {
    PageDoneAttempts(site, s);
    assert f == ExtractAll(site.extractOk, Unseen(site, s), s.(visited := s.visited + [s.currentUrl])) && h == [s];
    TracedOne(site, s, h, f);
  }

  /** Where the crawl goes from `s` when it moves on: the head of the next
      page, after this page's extractions. */
  lemma MoveStep(site: Site, s: CrawlState) returns (moved: CrawlState)
    requires Moves(site, s)
    ensures moved.visited == s.visited + [s.currentUrl] && moved.pageNum == s.pageNum + 1
    ensures PageAttempts(site, s, moved.attempts)
    ensures Heads(site, s) == [s] + Heads(site, moved)
    ensures CrawlFrom(site, s) == CrawlFrom(site, moved)
  {
    moved := NextHead(site, s);
    NextPageContinues(site, s);
    PageDoneAttempts(site, s);
  }

  /** A page with listings and a next page: its extractions, then the crawl
      from the next page. */
  lemma {:induction false} BatchesMove(site: Site, s: CrawlState, h: seq<CrawlState>, f: CrawlState)
    requires Moves(site, s)
    requires h == Heads(site, s) && f == CrawlFrom(site, s).1
    ensures Traced(site, s, h, f)
    decreases MaxPages + 1 - s.pageNum, 0
  {
    var moved := MoveStep(site, s);
    var rest := Heads(site, moved);
    CrawlFromBatches(site, moved, rest, f);
    TracedCons(site, s, moved, rest, h, f);
  }

  /** The loop heads `h` of the crawl from `s` to its result `f` trace it. */
  lemma {:induction false} CrawlFromBatches(site: Site, s: CrawlState, h: seq<CrawlState>, f: CrawlState)
    requires h == Heads(site, s) && f == CrawlFrom(site, s).1
    ensures Traced(site, s, h, f)
    decreases MaxPages + 1 - s.pageNum, 1
  {
    if !Running(s) {
      assert h == [] && f == s;
    } else if Harvested(site.containers(s.currentUrl, s.pageNum)) == [] {
      BatchesEmptyPage(site, s, h, f);
    } else if Moves(site, s) {
      BatchesMove(site, s, h, f);
    } else {
      BatchesLastPage(site, s, h, f);
    }
  }

  /** `process_lisbon_apartments` loads one page per loop head, at page
      numbers 1, 2, ..., starting with nothing processed or tried, and on
      each page calls `extract_listing_data` exactly on the page's harvested
      links not processed before it, once each, in harvest order. */
  lemma CrawlBatches(site: Site)
    ensures Start.visited == [] && Start.pageNum == 1 && Start.attempts == [] && Start.processed == {}
    ensures Traced(site, Start, Heads(site, Start), Crawl(site).1)
  {
    CrawlFromBatches(site, Start, Heads(site, Start), Crawl(site).1);
  }
}
