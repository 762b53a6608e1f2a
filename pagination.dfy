/** Choosing the next result page. The main scraper tries three locators in
    a fixed order and takes the first non-empty href; the test scraper tries
    five selectors and also requires the element to be enabled. */
module Pagination {
  import opened Wrappers
  import opened Urls
  import Search

  /** The three locators of `get_next_page_reliable`, in the order tried:
      `li.next a`, `a.icon-arrow-right-after`, and a link whose text contains
      "Next" or "Seguinte". */
  datatype Strategy = NextItemLink | ArrowLink | NextText

  const Strategies: seq<Strategy> := [NextItemLink, ArrowLink, NextText]

  function ReliableAt(hrefOf: Strategy -> Option<string>): nat -> Option<string> {
    (k: nat) => if k < |Strategies| then UsableHref(hrefOf(Strategies[k])) else None
  }

  /** `get_next_page_reliable`, given the href each locator reads (None when
      its element is not found or has no href attribute). */
  function NextPageReliable(hrefOf: Strategy -> Option<string>): Option<string> {
    Search.Leftmost(ReliableAt(hrefOf), |Strategies|)
  }

  /** The first locator with a non-empty href decides, whatever the later
      ones hold; and whatever is returned came from such a locator. */
  lemma NextPageReliableFirstUsable(hrefOf: Strategy -> Option<string>, k: nat)
    requires k < |Strategies|
    requires hrefOf(Strategies[k]).Some? && hrefOf(Strategies[k]).value != ""
    requires forall j :: 0 <= j < k ==> hrefOf(Strategies[j]).None? || hrefOf(Strategies[j]).value == ""
    ensures NextPageReliable(hrefOf) == Some(ResolveHref(hrefOf(Strategies[k]).value))
  {
    Search.LeftmostIs(ReliableAt(hrefOf), |Strategies|, k, ResolveHref(hrefOf(Strategies[k]).value));
  }

  lemma NextPageReliableSource(hrefOf: Strategy -> Option<string>) returns (k: nat)
    requires NextPageReliable(hrefOf).Some?
    ensures k < |Strategies| && hrefOf(Strategies[k]).Some? && hrefOf(Strategies[k]).value != ""
    ensures NextPageReliable(hrefOf).value == ResolveHref(hrefOf(Strategies[k]).value)
    ensures NextPageReliable(hrefOf).value != ""
    ensures forall j :: 0 <= j < k ==> hrefOf(Strategies[j]).None? || hrefOf(Strategies[j]).value == ""
  {
    k := Search.LeftmostSome(ReliableAt(hrefOf), |Strategies|);
    forall j | 0 <= j < k
      ensures hrefOf(Strategies[j]).None? || hrefOf(Strategies[j]).value == ""
    {
      assert ReliableAt(hrefOf)(j).None?;
    }
  }

  /** When no locator yields a non-empty href the result is None, not an
      error, and only then. */
  lemma NextPageReliableNone(hrefOf: Strategy -> Option<string>)
    ensures NextPageReliable(hrefOf).None? <==>
      forall s: Strategy :: hrefOf(s).None? || hrefOf(s).value == ""
  {
    Search.LeftmostNone(ReliableAt(hrefOf), |Strategies|);
    if NextPageReliable(hrefOf).None? {
      forall s: Strategy
        ensures hrefOf(s).None? || hrefOf(s).value == ""
      {
        var k := match s case NextItemLink => 0 case ArrowLink => 1 case NextText => 2;
        assert Strategies[k] == s;
        assert ReliableAt(hrefOf)(k).None?;
      }
    }
  }

  /** What `find_element` returns for a pagination selector: whether the
      element is enabled, and its href attribute. */
  datatype NextButton = NextButton(enabled: bool, href: Option<string>)

  /** The five selectors of `get_next_page_simple`, in the order tried. */
  const NextSelectors: seq<string> :=
    ["a.icon-arrow-right-after", "li.pagination-next > a", "a[data-qa='pagination-next']",
     "a.next", ".pagination .next > a"]

  /** A selector is usable when its element exists, is enabled and has a
      non-empty href. */
  function ButtonHref(button: Option<NextButton>): (r: Option<string>)
    ensures r.Some? <==> button.Some? && button.value.enabled && button.value.href.Some? && button.value.href.value != ""
  {
    if button.Some? && button.value.enabled then UsableHref(button.value.href) else None
  }

  function SimpleAt(find: string -> Option<NextButton>): nat -> Option<string> {
    (k: nat) => if k < |NextSelectors| then ButtonHref(find(NextSelectors[k])) else None
  }

  /** `get_next_page_simple`, given what each selector finds (None when the
      lookup raises). */
  function NextPageSimple(find: string -> Option<NextButton>): Option<string> {
    Search.Leftmost(SimpleAt(find), |NextSelectors|)
  }

  /** The loop over the selectors with its early return. */
  method GetNextPageSimple(find: string -> Option<NextButton>) returns (r: Option<string>)
    ensures r == NextPageSimple(find)
  {
    for i := 0 to |NextSelectors|
      invariant forall k :: 0 <= k < i ==> SimpleAt(find)(k).None?
    {
      var button := find(NextSelectors[i]);
      if button.Some? && button.value.enabled {
        var href := button.value.href;
        if href.Some? && href.value != "" {
          Search.LeftmostIs(SimpleAt(find), |NextSelectors|, i, ResolveHref(href.value));
          return Some(ResolveHref(href.value));
        }
      }
    }
    Search.LeftmostNone(SimpleAt(find), |NextSelectors|);
    return None;
  }

  /** The first usable selector decides. */
  lemma NextPageSimpleFirstUsable(find: string -> Option<NextButton>, k: nat)
    requires k < |NextSelectors| && ButtonHref(find(NextSelectors[k])).Some?
    requires forall j :: 0 <= j < k ==> ButtonHref(find(NextSelectors[j])).None?
    ensures NextPageSimple(find) == Some(ResolveHref(find(NextSelectors[k]).value.href.value))
  {
    Search.LeftmostIs(SimpleAt(find), |NextSelectors|, k, ResolveHref(find(NextSelectors[k]).value.href.value));
  }

  /** None exactly when no selector is usable. */
  lemma NextPageSimpleNone(find: string -> Option<NextButton>)
    ensures NextPageSimple(find).None? <==> forall j :: 0 <= j < |NextSelectors| ==> ButtonHref(find(NextSelectors[j])).None?
  {
    Search.LeftmostNone(SimpleAt(find), |NextSelectors|);
    if NextPageSimple(find).None? {
      forall j | 0 <= j < |NextSelectors|
        ensures ButtonHref(find(NextSelectors[j])).None?
      {
        assert SimpleAt(find)(j).None?;
      }
    }
  }

  /** A disabled button counts for nothing: removing it from the page gives
      the same next page. */
  lemma DisabledButtonIgnored(find: string -> Option<NextButton>, selector: string)
    requires find(selector).Some? && !find(selector).value.enabled
    ensures NextPageSimple(find) == NextPageSimple((s: string) => if s == selector then None else find(s))
  {
    var without := (s: string) => if s == selector then None else find(s);
    forall j | 0 <= j < |NextSelectors|
      ensures SimpleAt(find)(j) == SimpleAt(without)(j)
    {
      assert without(NextSelectors[j]) == if NextSelectors[j] == selector then None else find(NextSelectors[j]);
      if NextSelectors[j] == selector {
        assert ButtonHref(find(selector)).None?;
      }
    }
    Search.LeftmostPointwise(SimpleAt(find), SimpleAt(without), |NextSelectors|);
  }
}
