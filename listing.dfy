/** One listing page: the fields the main scraper reads into a record, the
    fixed 17-column CSV row written for it, and the test scraper's title
    lookup and page download. */
module Listing {
  import opened Wrappers
  import opened Text
  import opened Urls
  import opened FeatureParser
  import Search

  /** A loaded listing page: the text of the element each locator finds
      (None when the lookup fails), and the texts of the elements the energy
      fallback reads. */
  datatype ListingPage = ListingPage(textOf: string -> Option<string>, energyTexts: seq<string>)

  const TitleSelector := ".main-info__title-main"
  const PriceSelector := ".info-data-price"
  const AreaLocator := "//*[contains(text(), 'm²')]"
  const LocationSelector := ".main-info__title-minor"
  const DescriptionSelector := ".adCommentsLanguage"
  const AgencySelector := ".professional-name .name"

  /** The dictionary `extract_listing_data` assembles, field by field. */
  datatype ListingRecord = ListingRecord(
    listingId: string, url: string, scrapedAt: string,
    operation: string, propertyType: string, city: string,
    title: string, price: string, area: string, location: string, description: string,
    features: FeatureSet, updateDate: string, agency: string)

  /** The fields of `extract_basic_info`, without the identity fields. */
  datatype BasicInfo = BasicInfo(
    title: string, price: string, area: string, location: string, description: string,
    features: FeatureSet, updateDate: string, agency: string)

  /** `extract_basic_info`: each text stripped ("" when missing), the
      description truncated before the feature parser sees it, and the update
      date and agency read again afterwards, "" when missing. */
  function BasicInfoOf(page: ListingPage): (info: BasicInfo)
    ensures info.title == SafeText(page.textOf(TitleSelector)) && info.price == SafeText(page.textOf(PriceSelector))
    ensures info.area == SafeText(page.textOf(AreaLocator)) && info.location == SafeText(page.textOf(LocationSelector))
    ensures info.description == TruncateDescription(SafeText(page.textOf(DescriptionSelector)))
    ensures |info.description| <= DescriptionLimit + 3
    ensures info.features == ParseFeatures(FeaturesText(page.textOf), info.description,
                                           page.textOf(UpdateDateSelector), page.energyTexts)
    ensures info.features.energyCertificate == EnergyCertificate(info.description, page.energyTexts)
    ensures info.features.bedrooms == TextFeatures(FeaturesText(page.textOf)).bedrooms
    ensures info.updateDate == SafeText(page.textOf(UpdateDateSelector)) && info.agency == SafeText(page.textOf(AgencySelector))
  {
    var description := TruncateDescription(SafeText(page.textOf(DescriptionSelector)));
    var features := ParseFeatures(FeaturesText(page.textOf), description,
                                  page.textOf(UpdateDateSelector), page.energyTexts);
    BasicInfo(
      SafeText(page.textOf(TitleSelector)),
      SafeText(page.textOf(PriceSelector)),
      SafeText(page.textOf(AreaLocator)),
      SafeText(page.textOf(LocationSelector)),
      description,
      features,
      SafeText(page.textOf(UpdateDateSelector)),
      SafeText(page.textOf(AgencySelector)))
  }

  /** A page without a description (or with only whitespace in it) never
      gets an energy certificate, whatever the other elements say. */
  lemma NoDescriptionNoEnergy(page: ListingPage)
    requires SafeText(page.textOf(DescriptionSelector)) == ""
    ensures BasicInfoOf(page).features.energyCertificate.None?
  {
  }

  /** The record: identity fields first, then the basic info. */
  function Record(url: string, operation: string, propertyType: string, city: string,
                  scrapedAt: string, hash: string -> int, info: BasicInfo): ListingRecord
  {
    ListingRecord(ListingId(url, hash), url, scrapedAt, operation, propertyType, city,
      info.title, info.price, info.area, info.location, info.description,
      info.features, info.updateDate, info.agency)
  }

  /** The CSV header, in its fixed order. */
  const Header: seq<string> :=
    ["listing_id", "url", "scraped_at", "operation", "property_type", "city",
     "title", "price", "area", "bedrooms", "bathrooms", "location",
     "description", "property_type_detail", "update_date",
     "agency", "energy_certificate"]

  /** How the CSV writer renders an optional number: None as "", a number in
      decimal. */
  function NumberCell(v: Option<nat>): string {
    match v
    case None => ""
    case Some(n) => NatToDecimal(n)
  }

  function TextCell(v: Option<string>): string {
    match v
    case None => ""
    case Some(s) => s
  }

  /** `data.get(name, '')` as written by the CSV writer: the record's value
      under a dictionary key, "" for a key the dictionary lacks. */
  function Column(r: ListingRecord, name: string): string {
    match name
    case "listing_id" => r.listingId
    case "url" => r.url
    case "scraped_at" => r.scrapedAt
    case "operation" => r.operation
    case "property_type" => r.propertyType
    case "city" => r.city
    case "title" => r.title
    case "price" => r.price
    case "area" => r.area
    case "bedrooms" => NumberCell(r.features.bedrooms)
    case "bathrooms" => NumberCell(r.features.bathrooms)
    case "location" => r.location
    case "description" => r.description
    case "property_type_detail" => TextCell(r.features.propertyTypeDetail)
    case "completion_year" => NumberCell(r.features.completionYear)
    case "status" => TextCell(r.features.status)
    case "energy_certificate" => TextCell(r.features.energyCertificate)
    case "update_date" => r.updateDate
    case "agency" => r.agency
    case _ => ""
  }

  /** `save_to_csv`'s row, one cell per header column. */
  function Row(r: ListingRecord): (row: seq<string>)
    ensures |row| == |Header|
  {
    [r.listingId, r.url, r.scrapedAt, r.operation, r.propertyType, r.city,
     r.title, r.price, r.area, NumberCell(r.features.bedrooms), NumberCell(r.features.bathrooms), r.location,
     r.description, TextCell(r.features.propertyTypeDetail), r.updateDate,
     r.agency, TextCell(r.features.energyCertificate)]
  }

  /** Each cell holds the record's value under the header name above it. */
  lemma RowFollowsHeader(r: ListingRecord)
    ensures forall k :: 0 <= k < |Header| ==> Row(r)[k] == Column(r, Header[k])
  {
  }

  /** The record holds a completion year and a status, but no column does:
      they never reach the row. */
  lemma RowOmitsYearAndStatus(r: ListingRecord, year: Option<nat>, status: Option<string>)
    ensures "completion_year" !in Header && "status" !in Header
    ensures Row(r.(features := r.features.(completionYear := year, status := status))) == Row(r)
  {
  }

  /** What one call of `extract_listing_data` does: whether it reports
      success, and the row it hands to the CSV writer, if the write goes
      through. */
  datatype ListingOutcome = ListingOutcome(success: bool, written: Option<seq<string>>)

  /** `extract_listing_data`: `page` is None when loading the page fails,
      which is the only failure reported; `saveOk` is whether the CSV write
      succeeds, which `save_to_csv` reports and the caller ignores. */
  function ExtractListingData(url: string, operation: string, propertyType: string, city: string,
                              page: Option<ListingPage>, scrapedAt: string, hash: string -> int,
                              saveOk: bool): (r: ListingOutcome)
    ensures r.success <==> page.Some?
    ensures r.written.Some? <==> page.Some? && saveOk
    ensures r.written.Some? ==>
      r.written.value == Row(Record(url, operation, propertyType, city, scrapedAt, hash, BasicInfoOf(page.value)))
  {
    match page
    case None => ListingOutcome(false, None)
    case Some(p) =>
      var row := Row(Record(url, operation, propertyType, city, scrapedAt, hash, BasicInfoOf(p)));
      ListingOutcome(true, if saveOk then Some(row) else None)
  }

  /** A failed CSV write still counts as a processed listing. */
  lemma SaveFailureStillSucceeds(url: string, operation: string, propertyType: string, city: string,
                                 page: Option<ListingPage>, scrapedAt: string, hash: string -> int)
    ensures ExtractListingData(url, operation, propertyType, city, page, scrapedAt, hash, false).success
        == ExtractListingData(url, operation, propertyType, city, page, scrapedAt, hash, true).success
    ensures ExtractListingData(url, operation, propertyType, city, page, scrapedAt, hash, false).written.None?
  {
  }

  /** The row starts with the listing id derived from the URL, the URL, the
      timestamp and the three query names. */
  lemma RowIdentity(url: string, operation: string, propertyType: string, city: string,
                    scrapedAt: string, hash: string -> int, info: BasicInfo)
    ensures var row := Row(Record(url, operation, propertyType, city, scrapedAt, hash, info));
      && row[..6] == [ListingId(url, hash), url, scrapedAt, operation, propertyType, city]
      && row[12] == info.description
  {
    var rec := Record(url, operation, propertyType, city, scrapedAt, hash, info);
    RowCells(rec);
  }

  lemma RowCells(rec: ListingRecord)
    ensures var row := Row(rec);
      && row[..6] == [rec.listingId, rec.url, rec.scrapedAt, rec.operation, rec.propertyType, rec.city]
      && row[12] == rec.description
  {
  }

  /** The five title selectors of the test scraper, in the order tried. */
  const TitleSelectors: seq<string> :=
    ["h1.main-info__title", ".info-header h1", "[data-qa='ad-detail-title']", "h1.info-title", "a.item-link"]

  /** The stripped text of the k-th selector's element, when it is non-empty. */
  function TextAt(selectors: seq<string>, textOf: string -> Option<string>): nat -> Option<string> {
    (k: nat) => if k < |selectors| && SafeText(textOf(selectors[k])) != "" then Some(SafeText(textOf(selectors[k])))
                else None
  }

  function TitleAt(textOf: string -> Option<string>): nat -> Option<string> {
    TextAt(TitleSelectors, textOf)
  }

  const NoTitle := "Title not found"

  /** `extract_title`, given each selector's element text and the `title`
      attribute of the listing link: the first non-empty stripped text, else
      a non-empty attribute, else "Title not found". */
  function Title(textOf: string -> Option<string>, linkTitle: Option<string>): string {
    match Search.Leftmost(TitleAt(textOf), |TitleSelectors|)
    case Some(t) => t
    case None => if linkTitle.Some? && linkTitle.value != "" then linkTitle.value else NoTitle
  }

  /** The loop over the selectors: the first non-empty stripped text. */
  method FirstText(selectors: seq<string>, textOf: string -> Option<string>) returns (r: Option<string>)
    ensures r == Search.Leftmost(TextAt(selectors, textOf), |selectors|)
  {
    for i := 0 to |selectors|
      invariant forall k :: 0 <= k < i ==> TextAt(selectors, textOf)(k).None?
    {
      var text := SafeText(textOf(selectors[i]));
      if text != "" {
        Search.LeftmostIs(TextAt(selectors, textOf), |selectors|, i, text);
        return Some(text);
      }
    }
    Search.LeftmostNone(TextAt(selectors, textOf), |selectors|);
    return None;
  }

  /** The loop over the title selectors, then the attribute fallback. */
  method ExtractTitle(textOf: string -> Option<string>, linkTitle: Option<string>) returns (title: string)
    ensures title == Title(textOf, linkTitle)
  {
    var found := FirstText(TitleSelectors, textOf);
    if found.Some? {
      return found.value;
    }
    if linkTitle.Some? && linkTitle.value != "" {
      return linkTitle.value;
    }
    return NoTitle;
  }

  /** The three outcomes of the title lookup, in order of preference. */
  lemma TitlePreference(textOf: string -> Option<string>, linkTitle: Option<string>)
    ensures (exists k :: 0 <= k < |TitleSelectors| && SafeText(textOf(TitleSelectors[k])) != "") ==>
      exists k :: 0 <= k < |TitleSelectors| && Title(textOf, linkTitle) == SafeText(textOf(TitleSelectors[k])) != ""
    ensures (forall k :: 0 <= k < |TitleSelectors| ==> SafeText(textOf(TitleSelectors[k])) == "") ==>
      Title(textOf, linkTitle) == (if linkTitle.Some? && linkTitle.value != "" then linkTitle.value else NoTitle)
  {
    Search.LeftmostNone(TitleAt(textOf), |TitleSelectors|);
    if Search.Leftmost(TitleAt(textOf), |TitleSelectors|).Some? {
      var k := Search.LeftmostSome(TitleAt(textOf), |TitleSelectors|);
      assert Title(textOf, linkTitle) == SafeText(textOf(TitleSelectors[k]));
    } else {
      forall k | 0 <= k < |TitleSelectors|
        ensures SafeText(textOf(TitleSelectors[k])) == ""
      {
        assert TitleAt(textOf)(k).None?;
      }
    }
  }

  /** `download_single_listing`: `ok` is whether loading the page and writing
      its HTML both go through. On success the page is saved under the
      listing id derived from the URL. */
  function DownloadSingleListing(url: string, operation: string, propertyType: string, city: string,
                                 runPath: string, hash: string -> int, ok: bool): (saved: Option<string>)
    ensures saved.Some? <==> ok
  {
    if ok then Some(HtmlPath(runPath, operation, propertyType, city, ListingId(url, hash))) else None
  }

  /** For a listing URL ending in "<id>/" the file is
      "<run path>/<operation>/<type>/<city>/listings/<id>.html". */
  lemma DownloadPathHoldsId(prefix: string, id: string, operation: string, propertyType: string,
                            city: string, runPath: string, hash: string -> int)
    requires '/' !in id && '/' !in operation && '/' !in propertyType && '/' !in city
    ensures var saved := DownloadSingleListing(prefix + "/" + id + "/", operation, propertyType, city, runPath, hash, true);
      Split(saved.value, '/') == Split(runPath, '/') + [operation, propertyType, city, "listings", id + ".html"]
  {
    ListingIdOfTrailingSlash(prefix, id, hash);
    HtmlPathSegments(runPath, operation, propertyType, city, id);
  }
}
