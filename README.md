# Idealista scraper rules, modelled in Dafny

This project models the logic of three Selenium scrapers for the property site
idealista.pt. The browser is taken out: every element lookup becomes an input
value (an optional text or href, or a sequence of them), and every page load,
download or CSV write becomes a boolean saying whether it went through.

What remains, and what is modelled:

- **The feature parser** of the main scraper (`extract_features_from_details`).
  It runs first-match-wins cascades over the lower-cased features text to read
  bathrooms, bedrooms, the property type, the status and a completion year.
  The energy certificate comes from labelled patterns in the description, with
  a fallback over other element texts. Each `re.search` is a leftmost scan
  (module `Search`). Each pattern is a matcher tried at one start position
  (module `Patterns`). The cascades are `for … break` loops, proved equal to
  their specification functions (module `FeatureParser`).
- **URL and record helpers** (module `Urls`):
  - the listing id `url.split('/')[-2]`, or `temp_<hash>` for a URL without a slash;
  - resolving a site-relative href against the origin;
  - the three `build_url` variants;
  - the save paths of downloaded pages;
  - the 200-character description truncation.
- **Pagination** (module `Pagination`): the three-locator
  `get_next_page_reliable` and the five-selector `get_next_page_simple`.
- **Link harvesting** (module `Harvest`): the main scraper's ordered
  harvest, and the test scraper's deduplicating harvest.
- **One listing** (module `Listing`):
  - `extract_basic_info`;
  - the 17-column CSV row;
  - `extract_listing_data`, which reports success even when the CSV write fails;
  - `extract_title`;
  - `download_single_listing`.
- **The main crawl** `process_lisbon_apartments` (modules `MainCrawl` and
  `CrawlProperties`): a `while` loop over at most 100 result pages.
- **The test crawl** `process_lisbon_only` (modules `QuickCrawl` and
  `QuickCrawlProperties`): at most 3 pages, and at most 3 new listings per page.
- **The job enumeration** of the mapping-based test scraper's `run` (modules
  `Jobs` and `JobsProperties`): operations × property types × the first three
  cities.

Each loop of the source is a `method` with a `for` or `while` loop. Its
`ensures` ties the result to a specification function. The properties are
proved about those functions as lemmas.

Where the scraper's design notes and its code disagree, the model follows the
code:

- The test scraper deduplicates links with `list(set(links))`, so the order of
  the links is not preserved. `ExtractUniqueLinks` promises only no duplicates
  and the same members. Its order is an unconstrained choice.
- The main scraper's harvest does not deduplicate at all. So a listing that
  two containers of one page both link to is extracted, and counted, twice
  (`CrawlProperties.RepeatedLinkCountedTwice`). Only when no page repeats a
  link is `total_listings` the number of distinct processed listings
  (`CrawlProperties.CrawlCountsOnce`).
- The listing id falls back to the hash only for a URL without any `/`. A URL
  without a trailing slash gets its parent segment as its id.
- The main scraper's `build_url` ignores its arguments and the mapping. It
  always returns the Lisbon search page.
- The bedroom cascade tries `quarto` before `t(\d+)` and before `quartos`.
  So the `quartos` pattern never decides (`FeatureProperties.QuartosPatternNeverDecides`).
- The CSV row has no `completion_year` and no `status` column, although the
  parser computes both.
- On an empty harvest, the main crawl calls `get_next_page_simple`, a method
  its class does not define. The resulting `AttributeError` ends the crawl
  through the handler in `run`. The model ends the crawl with status
  `MissingMethodRaised`.

## Model

| member | source | states |
|---|---|---|
| Text.Fold | src/scrapers/idealista/idealista_scraper.py:401 | upper-case letters move to lower case by +32, every other character is unchanged |
| Text.Lower | src/scrapers/idealista/idealista_scraper.py:401 | lower-casing keeps the length and folds each character in place |
| Text.Strip | src/scrapers/idealista/idealista_scraper.py:524 | the stripped text is no longer than the original and neither starts nor ends with whitespace, where whitespace is what `str.isspace()` accepts: ASCII whitespace and separators, U+0085, U+00A0 and the Unicode spaces |
| Text.StripIdempotent | src/scrapers/idealista/idealista_scraper.py:524 | stripping a stripped text changes nothing |
| Text.StripNoBreakSpace | src/scrapers/idealista/idealista_scraper.py:524 | a trailing no-break space (what `&nbsp;` becomes in `textContent`) is stripped |
| Text.StripSeparators | src/scrapers/idealista/idealista_scraper.py:524 | a leading information separator U+001C and a trailing ideographic space are stripped |
| Text.StripKeepsInnerText | src/scrapers/idealista/idealista_scraper.py:524 | stripping keeps exactly the characters from the first to the last non-whitespace character |
| Text.DigitsValue | src/scrapers/idealista/idealista_scraper.py:416 | `int` of an n-digit string is below 10^n |
| Text.DecimalRoundTrip | src/scrapers/idealista/idealista_scraper.py:416 | reading back the decimal form of a number gives the number |
| Text.IntToDecimal | src/scrapers/idealista/idealista_scraper.py:353 | the decimal form of the hash is never empty |
| Search.FirstFromSpec | src/scrapers/idealista/idealista_scraper.py:413-418 | the first-match scan returns a matching position with nothing matching before it, and returns nothing only when no position matches |
| Search.LeftmostIs | src/scrapers/idealista/idealista_scraper.py:414 | a match with no match before it is what `re.search` reports |
| Search.LeftmostNone | src/scrapers/idealista/idealista_scraper.py:414 | the search fails exactly when no start position matches |
| Search.LeftmostSome | src/scrapers/idealista/idealista_scraper.py:414 | a reported match was found at some position, and no earlier position matches |
| Search.LeftmostPointwise | src/scrapers/idealista/idealista_scraper.py:414 | two matchers that agree at every position search alike |
| Patterns.DigitRunEnd | src/scrapers/idealista/idealista_scraper.py:406 | `\d+` consumes the maximal digit run: all digits, and no digit right after |
| Patterns.SpaceRunEnd | src/scrapers/idealista/idealista_scraper.py:406 | `\s*` consumes the maximal whitespace run |
| Patterns.FourDigitsAt | src/scrapers/idealista/idealista_scraper.py:451 | a four-digit group is below 10000 |
| Patterns.GradeAt | src/scrapers/idealista/idealista_scraper.py:483 | the captured group is a letter with an optional `+` or `-` |
| Patterns.LabelledGradeAt | src/scrapers/idealista/idealista_scraper.py:483-487 | a labelled pattern captures a grade |
| Patterns.FoundGradeIsGrade | src/scrapers/idealista/idealista_scraper.py:490-493 | what a labelled pattern's search returns is a grade |
| Patterns.NumberIsWholeDigitRun | src/scrapers/idealista/idealista_scraper.py:413-416 | the number reported for `(\d+)\s*token` is the value of a whole digit run, with no digit before or after it, and the token follows the whitespace after it |
| Patterns.MatchExtendsLeft | src/scrapers/idealista/idealista_scraper.py:414 | a match starting right after a digit also matches one position earlier |
| Patterns.ExtendedTokenMatchesPrefixToken | src/scrapers/idealista/idealista_scraper.py:421-428 | wherever a longer token such as `quartos` matches, its prefix `quarto` matches too |
| FeatureParser.CompletionYear | src/scrapers/idealista/idealista_scraper.py:451-456 | a year is kept only when it is the first four-digit run of the raw text and lies strictly between 1900 and 2030; otherwise there is none |
| FeatureParser.SafeText | src/scrapers/idealista/idealista_scraper.py:518-526 | a missing element gives "" |
| FeatureParser.FeaturesText | src/scrapers/idealista/idealista_scraper.py:393-395 | the features text is the text of one of the three locators, and "" exactly when all three give "" |
| FeatureParser.MatchNumberCascade | src/scrapers/idealista/idealista_scraper.py:413-418 | the `for … break` loop over numeric patterns returns the first pattern's value, in list order, that matches anywhere |
| FeatureParser.MatchLiteralCascade | src/scrapers/idealista/idealista_scraper.py:444-448 | the loop over literals returns the first literal of the list found in the text |
| FeatureParser.MatchEnergyLabels | src/scrapers/idealista/idealista_scraper.py:490-495 | the loop over the five energy labels returns the grade of the first matching label |
| FeatureParser.MatchElementTexts | src/scrapers/idealista/idealista_scraper.py:498-509 | the fallback loop returns the grade from the first element text any label matches |
| FeatureParser.MatchEnergyCertificate | src/scrapers/idealista/idealista_scraper.py:481-511 | the description loop and its `for … else` fallback compute the energy certificate |
| FeatureParser.ParseFeaturesText | src/scrapers/idealista/idealista_scraper.py:400-468 | the cascades over a non-empty features text fill the fields as specified |
| FeatureParser.ExtractFeaturesFromDetails | src/scrapers/idealista/idealista_scraper.py:378-516 | the whole parser: the features text, then the cascades, the update date and the energy certificate |
| FeatureProperties.EmptyFeaturesTextGivesNoFields | src/scrapers/idealista/idealista_scraper.py:397-399 | an empty features text leaves bathrooms, bedrooms, type, year and status None |
| FeatureProperties.NumberCascadeFirstMatchWins | src/scrapers/idealista/idealista_scraper.py:413-418 | a numeric cascade yields the value of the first pattern in list order that matches |
| FeatureProperties.NumberCascadeNone | src/scrapers/idealista/idealista_scraper.py:413-418 | a numeric cascade yields nothing exactly when no pattern matches |
| FeatureProperties.QuartosPatternNeverDecides | src/scrapers/idealista/idealista_scraper.py:421-428 | removing `(\d+)\s*quartos` from the bedroom cascade changes no result |
| FeatureProperties.TypologyDecidesBeforeRoom | src/scrapers/idealista/idealista_scraper.py:421-435 | without a `bedroom` or `quarto` count, the `t(\d+)` typology decides, ahead of `room` and `hab` |
| FeatureProperties.LiteralCascadeFirstMatchWins | src/scrapers/idealista/idealista_scraper.py:444-448 | the first listed literal present wins, wherever it occurs in the text |
| FeatureProperties.LiteralCascadeFound | src/scrapers/idealista/idealista_scraper.py:459-468 | a literal found by the cascade is present, and no literal listed before it is |
| FeatureProperties.TerracedHouseWins | src/scrapers/idealista/idealista_scraper.py:439-448 | "terraced house" is the type whenever it is present |
| FeatureProperties.ApartmentBeatsHouse | src/scrapers/idealista/idealista_scraper.py:439-448 | "apartment" beats "house" wherever each occurs |
| FeatureProperties.OnlyFirstFourDigitsCount | src/scrapers/idealista/idealista_scraper.py:451-456 | when the first four-digit run is out of range there is no year, even if a later run is in range |
| FeatureProperties.EnergyCertificateIsGrade | src/scrapers/idealista/idealista_scraper.py:482-493 | the energy certificate is always a letter with an optional `+` or `-` |
| FeatureProperties.FirstGradeIsGrade | src/scrapers/idealista/idealista_scraper.py:490-495 | what the label loop returns is a grade |
| FeatureProperties.EnergyCertificateSources | src/scrapers/idealista/idealista_scraper.py:481-511 | no certificate without a description; a description label wins over the elements; the elements are read only when no label matches the description |
| FeatureProperties.ElementFallbackStopsAtFirstHit | src/scrapers/idealista/idealista_scraper.py:500-509 | the fallback takes the first element text a label matches |
| FeatureExamples.ExampleBathrooms | src/scrapers/idealista/idealista_scraper.py:405-418 | "T3, 2 bathrooms, apartment, 2021" gives 2 bathrooms |
| FeatureExamples.ExampleBedrooms | src/scrapers/idealista/idealista_scraper.py:421-435 | the same text gives 3 bedrooms through the typology marker |
| FeatureExamples.ExampleType | src/scrapers/idealista/idealista_scraper.py:439-448 | the same text is an apartment |
| FeatureExamples.ExampleStatus | src/scrapers/idealista/idealista_scraper.py:459-468 | the same text has no status |
| FeatureExamples.ExampleYear | src/scrapers/idealista/idealista_scraper.py:451-456 | the same text has completion year 2021 |
| FeatureExamples.FirstYearOutOfRange | src/scrapers/idealista/idealista_scraper.py:451-456 | "Built 1850, renovated 2020" has no completion year |
| FeatureExamples.YearInRange | src/scrapers/idealista/idealista_scraper.py:451-456 | "Delivery in 2025" has completion year 2025 |
| FeatureExamples.DescriptionGrade | src/scrapers/idealista/idealista_scraper.py:481-495 | "Energy Rating: B+" in the description gives "B+", whatever the other elements say |
| FeatureExamples.ParseFeaturesExample | src/scrapers/idealista/idealista_scraper.py:400-468 | the whole parser on the example text gives 3 bedrooms, 2 bathrooms, an apartment and 2021 |
| Urls.Split | src/scrapers/idealista/idealista_scraper.py:353 | `split` gives at least one part, no part holds the separator, and a text without it is one part |
| Urls.JoinSplit | src/scrapers/idealista/idealista_scraper.py:353 | joining the parts of a split gives the text back |
| Urls.SplitJoin | src/scrapers/idealista/idealista_scraper.py:353 | splitting a join of separator-free parts gives the parts back |
| Urls.ListingId | src/scrapers/idealista/idealista_scraper.py:353 | with a slash in the URL, the id holds no slash; without one, it is `temp_` followed by more |
| Urls.ListingIdOfTrailingSlash | src/scrapers/idealista/idealista_scraper.py:353 | ".../imovel/abc123/" gives "abc123" |
| Urls.ListingIdWithoutTrailingSlash | src/scrapers/idealista/idealista_scraper.py:353 | without a trailing slash the id is the parent segment |
| Urls.ListingIdFromHash | src/scrapers/idealista/quick_test1.py:149 | a URL without a slash gets `temp_` and its hash in decimal |
| Urls.ResolveHref | src/scrapers/idealista/idealista_scraper.py:222-226 | an href starting with `/` is prefixed with the origin; any other href is kept |
| Urls.ResolveHrefIdempotent | src/scrapers/idealista/idealista_scraper.py:263-265 | resolving a resolved URL changes nothing |
| Urls.ResolveHrefNonEmpty | src/scrapers/idealista/idealista_scraper.py:221-226 | a non-empty href resolves to a non-empty URL |
| Urls.UsableHref | src/scrapers/idealista/idealista_scraper.py:219-226 | an href is used exactly when it is present and non-empty, and then it is resolved |
| Urls.BuildUrlFixed | src/scrapers/idealista/idealista_scraper.py:160-173 | the main scraper's URL is the Lisbon purchase search page `https://www.idealista.pt/en/comprar-casas/lisboa/` for every mapping, operation, property type and city: the looked-up names are never used, and a failed lookup returns the same page |
| Urls.BuildUrl | src/scrapers/idealista/quick_test1.py:63-70 | a URL is built exactly when all three names are mapped; otherwise a `KeyError` names the first missing one, in the order operation, type, city |
| Urls.BuildUrlSegments | src/scrapers/idealista/quick_test.py:64-74 | the built URL's segments are the origin's, "en", the mapped operation and type joined by `-`, the mapped city, and an empty last segment |
| Urls.BuildUrlJoin | src/scrapers/idealista/quick_test.py:70-74 | the built URL is the origin followed by the four path segments joined by `/` |
| Urls.SavePathSegments | src/scrapers/idealista/quick_test.py:116 | a save path's segments are the run path's, then operation, type, city and `page_1.html` |
| Urls.SavePathInjective | src/scrapers/idealista/quick_test.py:116 | two jobs with slash-free names share a save path only when they are the same job |
| Urls.HtmlPathSegments | src/scrapers/idealista/quick_test1.py:152 | a listing's path segments are the run path's, the three names, `listings` and `<id>.html` |
| Urls.RunPathSegments | src/scrapers/idealista/quick_test.py:105 | the run path is data/bronze/idealista/run_<id>/ |
| Urls.SavePathDoubleSlash | src/scrapers/idealista/quick_test.py:105-116 | since the run path ends in `/`, every save path holds an empty segment |
| Urls.TruncateDescription | src/scrapers/idealista/idealista_scraper.py:587 | a description over 200 characters becomes its first 200 followed by "..." (203 characters); a shorter one is unchanged |
| Urls.TruncateUnchangedIff | src/scrapers/idealista/idealista_scraper.py:587 | truncation keeps the text exactly when it has at most 200 characters, or has 203 characters ending in "..." |
| Urls.TruncateIdempotent | src/scrapers/idealista/idealista_scraper.py:587 | truncating twice is truncating once |
| Pagination.NextPageReliableFirstUsable | src/scrapers/idealista/idealista_scraper.py:251-307 | the first of the three locators with a non-empty href decides, resolved against the origin |
| Pagination.NextPageReliableSource | src/scrapers/idealista/idealista_scraper.py:255-298 | a returned URL comes from the first locator with a non-empty href, and is non-empty |
| Pagination.NextPageReliableNone | src/scrapers/idealista/idealista_scraper.py:286-307 | None, not an error, exactly when no locator has a non-empty href |
| Pagination.ButtonHref | src/scrapers/idealista/quick_test1.py:118-121 | a selector is usable exactly when its element exists, is enabled and has a non-empty href |
| Pagination.GetNextPageSimple | src/scrapers/idealista/quick_test1.py:104-134 | the loop over the five selectors with its early return computes the next page |
| Pagination.NextPageSimpleFirstUsable | src/scrapers/idealista/quick_test1.py:116-125 | the first usable selector decides, its href resolved |
| Pagination.NextPageSimpleNone | src/scrapers/idealista/quick_test1.py:116-130 | None exactly when no selector is usable |
| Pagination.DisabledButtonIgnored | src/scrapers/idealista/quick_test1.py:119 | a disabled button counts for nothing: taking it away gives the same next page |
| Harvest.Harvested | src/scrapers/idealista/idealista_scraper.py:212-226 | no more links than containers, and no link is empty |
| Harvest.ExtractListingLinks | src/scrapers/idealista/idealista_scraper.py:200-249 | the loop over the containers harvests their usable hrefs in page order |
| Harvest.HarvestedAppend | src/scrapers/idealista/idealista_scraper.py:215-226 | the harvest keeps the page order |
| Harvest.HarvestedMember | src/scrapers/idealista/idealista_scraper.py:215-226 | a link is harvested exactly when some container carries a usable href resolving to it |
| Harvest.ExtractUniqueLinks | src/scrapers/idealista/quick_test1.py:72-102 | the test harvest has no duplicates and exactly the members of the ordered harvest |
| Listing.BasicInfoOf | src/scrapers/idealista/idealista_scraper.py:528-618 | title, price, area, location, update date and agency are each the stripped text of their locator, or "" when it is missing; the update date and agency are read again after the feature parser and replace its value; the description is the stripped text cut to 200 characters plus "..." (at most 203); the features are the parser's result on the three-locator features text and that truncated description, so the certificate comes from the truncated description and the fallback texts and the bedrooms from the features text |
| Listing.NoDescriptionNoEnergy | src/scrapers/idealista/idealista_scraper.py:581-594 | a page without a description never gets an energy certificate |
| Listing.Row | src/scrapers/idealista/idealista_scraper.py:634-660 | the row has one cell per header column (17) |
| Listing.RowFollowsHeader | src/scrapers/idealista/idealista_scraper.py:637-655 | each cell holds the record's value under the header name above it |
| Listing.RowOmitsYearAndStatus | src/scrapers/idealista/idealista_scraper.py:183-188 | completion year and status are in no column, and changing them leaves the row unchanged |
| Listing.RowIdentity | src/scrapers/idealista/idealista_scraper.py:353-363 | the row starts with the listing id, the URL, the timestamp and the three query names |
| Listing.ExtractListingData | src/scrapers/idealista/idealista_scraper.py:337-376 | success exactly when the page loads; a row is written exactly when the page loads and the write succeeds, and it is the row of the record built from the URL, the query and the page's basic information |
| Listing.SaveFailureStillSucceeds | src/scrapers/idealista/idealista_scraper.py:368-372 | a failed CSV write changes nothing about the reported success, and writes no row |
| Listing.FirstText | src/scrapers/idealista/quick_test1.py:180-187 | the loop over the selectors returns the first non-empty stripped element text, or nothing |
| Listing.ExtractTitle | src/scrapers/idealista/quick_test1.py:168-201 | the selector loop and the attribute fallback compute the title |
| Listing.TitlePreference | src/scrapers/idealista/quick_test1.py:172-198 | a non-empty selector text wins; otherwise the non-empty `title` attribute; otherwise "Title not found" |
| Listing.DownloadSingleListing | src/scrapers/idealista/quick_test1.py:136-166 | a path is returned exactly when the download goes through |
| Listing.DownloadPathHoldsId | src/scrapers/idealista/quick_test1.py:148-152 | a listing ".../<id>/" is saved at `<run>/<op>/<type>/<city>/listings/<id>.html` |
| MainCrawl.NewLinks | src/scrapers/idealista/idealista_scraper.py:701 | filtering never adds links |
| MainCrawl.ExtractAll | src/scrapers/idealista/idealista_scraper.py:705-711 | extracting a page's links leaves the page and URL alone and records one attempt per link |
| MainCrawl.ExtractAllAppends | src/scrapers/idealista/idealista_scraper.py:705-711 | the earlier attempts stay, and the i-th new attempt is `extract_listing_data` on the i-th link, in order |
| MainCrawl.ExtractNewLinks | src/scrapers/idealista/idealista_scraper.py:705-711 | the loop over the new links gives the processed set, count and attempts of the specification |
| MainCrawl.ProcessLisbonApartments | src/scrapers/idealista/idealista_scraper.py:662-726 | the `while` loop returns the specified status and `total_listings` |
| CrawlProperties.ExtractAllAccounted | src/scrapers/idealista/idealista_scraper.py:705-709 | one page's extractions keep the processed set and count equal to the successes |
| CrawlProperties.CrawlFromAccounted | src/scrapers/idealista/idealista_scraper.py:677-723 | every loop iteration keeps that accounting |
| CrawlProperties.SuccessUrlsBound | src/scrapers/idealista/idealista_scraper.py:707-709 | distinct successful URLs never outnumber successes |
| CrawlProperties.CrawlAccounting | src/scrapers/idealista/idealista_scraper.py:674-726 | `processed_links` is exactly the URLs whose extraction succeeded, `total_listings` the number of successes, and no smaller than the set |
| CrawlProperties.CrawlFromPages | src/scrapers/idealista/idealista_scraper.py:677-723 | from a loop head, the pages stay linked and the page number stays one past the pages loaded |
| CrawlProperties.CrawlPages | src/scrapers/idealista/idealista_scraper.py:671-723 | 1 to 100 pages are loaded, starting at the Lisbon page; each move goes to a different URL the next-page lookup returned; the page number ends at most at 101 |
| CrawlProperties.CrawlFromRaises | src/scrapers/idealista/idealista_scraper.py:689-698 | the crawl raises exactly when the last loaded page had no listings |
| CrawlProperties.CrawlStatus | src/scrapers/idealista/idealista_scraper.py:687-698 | every loaded page but the last had listings, and the crawl ends with the missing-method error exactly when the last had none |
| CrawlProperties.NewLinksMember | src/scrapers/idealista/idealista_scraper.py:701 | a new link is exactly a harvested link not yet processed |
| CrawlProperties.NewLinksAppend | src/scrapers/idealista/idealista_scraper.py:701 | filtering keeps the harvest order |
| CrawlProperties.NewLinksDistinct | src/scrapers/idealista/idealista_scraper.py:701 | filtering a list without duplicates gives one without duplicates |
| CrawlProperties.ExtractAllExact | src/scrapers/idealista/idealista_scraper.py:705-709 | distinct, unprocessed links grow the count exactly as the processed set |
| CrawlProperties.CrawlFromExact | src/scrapers/idealista/idealista_scraper.py:677-723 | when no page repeats a link, each iteration keeps the count equal to the set's size |
| CrawlProperties.CrawlCountsOnce | src/scrapers/idealista/idealista_scraper.py:705-709 | when no page repeats a link, `total_listings` is the number of distinct processed listings |
| CrawlProperties.RepeatedLinkCountedTwice | src/scrapers/idealista/idealista_scraper.py:701-709 | a page listing one listing twice gives a total of 2 for a single processed URL |
| CrawlProperties.Heads | src/scrapers/idealista/idealista_scraper.py:677-723 | the loop heads at which a result page is loaded start with the current head, and there are none once the loop condition fails |
| CrawlProperties.TracedCons | src/scrapers/idealista/idealista_scraper.py:677-723 | a page's extractions followed by a traced rest of the crawl trace the whole |
| CrawlProperties.CrawlFromBatches | src/scrapers/idealista/idealista_scraper.py:677-723 | from any loop head, the k-th page loaded is at page number `page_num + k`, and the extraction attempts split into one segment per page: one `extract_listing_data` call for each harvested link of that page not in `processed_links` at its loop head, in harvest order |
| CrawlProperties.CrawlBatches | src/scrapers/idealista/idealista_scraper.py:671-723 | from the Lisbon page with nothing processed, page k is loaded as page number k, and on each page exactly its harvested links not yet processed are extracted, once each, in order |
| QuickCrawl.FirstFew | src/scrapers/idealista/quick_test1.py:238 | `new_links[:3]` is a prefix of at most 3 links, all of them when there are fewer |
| QuickCrawl.DownloadAll | src/scrapers/idealista/quick_test1.py:238-243 | one download per batch link, with the page and URL unchanged |
| QuickCrawl.DownloadAllAppends | src/scrapers/idealista/quick_test1.py:238-243 | the earlier downloads stay, and the i-th new download is of the i-th batch link |
| QuickCrawl.Batch | src/scrapers/idealista/quick_test1.py:234-238 | a page's batch holds at most 3 links |
| QuickCrawl.LisbonOnly | src/scrapers/idealista/quick_test1.py:203-211 | the crawl fails exactly when a configuration list is empty or the first names are not mapped, and a mapping failure is the `KeyError` naming the missing name |
| QuickCrawl.DownloadNewLinks | src/scrapers/idealista/quick_test1.py:234-243 | the loop over the first new links gives the specified processed set and downloads |
| QuickCrawl.CrawlPages | src/scrapers/idealista/quick_test1.py:217-255 | the `while` loop gives the specified final state |
| QuickCrawl.ProcessLisbonOnly | src/scrapers/idealista/quick_test1.py:203-255 | `process_lisbon_only` gives the specified result |
| QuickCrawlProperties.SavedUrlsMember | src/scrapers/idealista/quick_test1.py:239-241 | a URL is saved exactly when some download of it went through |
| QuickCrawlProperties.DownloadOneConsistent | src/scrapers/idealista/quick_test1.py:239-241 | downloading an unprocessed link keeps the loop-head facts |
| QuickCrawlProperties.DownloadAllConsistent | src/scrapers/idealista/quick_test1.py:238-243 | a page's batch of distinct, unprocessed links keeps them |
| QuickCrawlProperties.BatchFresh | src/scrapers/idealista/quick_test1.py:234-238 | the batch is distinct and holds no processed link |
| QuickCrawlProperties.PageConsistent | src/scrapers/idealista/quick_test1.py:227-243 | one page keeps the loop-head facts when it lists no link twice |
| QuickCrawlProperties.LoopFromConsistent | src/scrapers/idealista/quick_test1.py:217-255 | the loop keeps them to its end |
| QuickCrawlProperties.LisbonOnlyDownloads | src/scrapers/idealista/quick_test1.py:203-255 | the processed set is exactly the saved listings, each saved under its id, and none loaded again after it was saved |
| QuickCrawlProperties.LoopFromPages | src/scrapers/idealista/quick_test1.py:217-255 | from a loop head, pages stay linked, at most 3 are loaded, and the downloads number at most 3 times the pages loaded |
| QuickCrawlProperties.LisbonOnlyPages | src/scrapers/idealista/quick_test1.py:214-255 | at most 3 pages, at most 3 times as many downloads as pages, and each move follows `get_next_page_simple` to a different URL |
| QuickCrawlProperties.Heads | src/scrapers/idealista/quick_test1.py:217-255 | the loop heads at which a page is loaded start with the current head, and there are none once the loop condition fails |
| QuickCrawlProperties.TracedCons | src/scrapers/idealista/quick_test1.py:217-252 | a page's downloads followed by a traced rest of the crawl trace the whole |
| QuickCrawlProperties.LoopFromBatches | src/scrapers/idealista/quick_test1.py:217-255 | from any loop head, the k-th page loaded is at page number `page_num + k`, and the downloads split into one segment per page: one download for each of the first 3 links of that page not processed at its loop head, in order |
| QuickCrawlProperties.LisbonOnlyBatches | src/scrapers/idealista/quick_test1.py:203-255 | from an empty start, page k is loaded as page number k, and on each page exactly its first 3 links not yet processed are downloaded, in order |
| QuickCrawlProperties.EmptyPageSkipsPagination | src/scrapers/idealista/quick_test1.py:229-231 | a page without links ends the crawl with no pagination lookup |
| Jobs.TestCities | src/scrapers/idealista/quick_test.py:112 | `cities[:3]` is a prefix of at most 3 cities |
| Jobs.CityJobs | src/scrapers/idealista/quick_test.py:112-121 | one job per city, in order |
| Jobs.RunFromAppend | src/scrapers/idealista/quick_test.py:110-122 | running two job lists in turn is running them together |
| Jobs.AbortedStays | src/scrapers/idealista/quick_test.py:109-123 | once a `KeyError` escapes, no further job runs |
| Jobs.RunCities | src/scrapers/idealista/quick_test.py:112-122 | the inner loop runs the city jobs as specified |
| Jobs.RunTypes | src/scrapers/idealista/quick_test.py:111-122 | the middle loop runs the type jobs as specified |
| Jobs.RunOperations | src/scrapers/idealista/quick_test.py:110-122 | the outer loop runs all jobs as specified |
| Jobs.RunAllJobs | src/scrapers/idealista/quick_test.py:102-126 | `run` visits the jobs over the first three cities |
| JobsProperties.TypeJobsLength | src/scrapers/idealista/quick_test.py:111-112 | one operation has types × cities jobs |
| JobsProperties.AllJobsLength | src/scrapers/idealista/quick_test.py:110-112 | all operations together have operations × types × cities jobs |
| JobsProperties.JobCount | src/scrapers/idealista/quick_test.py:110-121 | the run has operations × types × min(3, cities) jobs |
| JobsProperties.TypeJobsMember | src/scrapers/idealista/quick_test.py:111-112 | a type block holds exactly the jobs of its operation with a listed type and city |
| JobsProperties.AllJobsMember | src/scrapers/idealista/quick_test.py:110-112 | the jobs are exactly the listed combinations |
| JobsProperties.JobsAreCombinations | src/scrapers/idealista/quick_test.py:110-112 | the run visits exactly the combinations of a listed operation, a listed type and one of the first three cities |
| JobsProperties.TypeJobsConcat | src/scrapers/idealista/quick_test.py:111-112 | the jobs of two lists of property types are the first list's jobs followed by the second's |
| JobsProperties.AllJobsConcat | src/scrapers/idealista/quick_test.py:110-112 | the jobs of two lists of operations are the first list's jobs followed by the second's |
| JobsProperties.TypeJobsSplit | src/scrapers/idealista/quick_test.py:111-112 | within an operation, type b's cities come in order, after every job of an earlier type and before every job of a later one |
| JobsProperties.AllJobsSplit | src/scrapers/idealista/quick_test.py:110-112 | operation a's jobs come after every job of an earlier operation and before every job of a later one: operation outermost, then type, then city |
| JobsProperties.RunFromNotStarted | src/scrapers/idealista/quick_test.py:110-121 | the downloads are the jobs in order, each with its URL and save path, until the first job whose URL does not build, whose `KeyError` ends the run |
| JobsProperties.RunCompletes | src/scrapers/idealista/quick_test.py:98-121 | the run finishes exactly when every URL builds, and then downloads every job in order; a failed download never stops it |
| JobsProperties.RunAborts | src/scrapers/idealista/quick_test.py:109-123 | the first job with an unmapped name ends the run with that `KeyError`, and the downloads before it stay |

## Left out

- The Selenium driver: browser setup, waits and timeouts, `execute_script`, and element lookup. Each lookup is an input value. A listing page load, a listing download or a CSV write that may fail is a boolean input.
- Delays (`time.sleep`, `random.uniform`), `print` diagnostics, `debug_page_content` and the logger setup. None of them changes a result.
- Loading the JSON configuration and mapping files, with the main scraper's fallback defaults. The lists and the mapping are parameters.
- File writes: the CSV file, the HTML pages and the created folders. The model keeps the row and the path each write would use.
- `extract_data_from_downloaded_files` of the test scraper: it walks the file system and parses HTML with BeautifulSoup and pandas.
- `datetime.now()` timestamps and run ids. They are parameters.
- Python's per-process `hash()`. It is a function parameter of `ListingId`.
- General `urljoin` (section 5.2 of RFC 3986). Only an href with a single leading `/` is resolved, by concatenation with the origin. A `//host` href is treated the same way.
- Unicode semantics: `\d` is ASCII. `str.lower()` and `re.IGNORECASE` fold ASCII and the Latin-1 letters only. Whitespace for `\s` and `str.strip()` is the full `str.isspace()` set.
- The `except` that wraps the whole of `extract_title`. Every lookup inside it is already guarded, so the model never reaches it.
- The `except` around the whole of `get_next_page_reliable` and `get_next_page_simple`. A failing lookup is a missing element.
- The counts printed by the harvesting loop of the main scraper (`/imovel/` and `/empreendimento/` counts).
- Harvest.ExtractUniqueLinks: promises only the members and no duplicates. The order `list(set(...))` yields depends on string hashing, so it is left unconstrained.
- MainCrawl.ProcessLisbonApartments: the site is seen through functions of the URL and the page number. A page that changes between two loads of the same page number is not modelled.
- MainCrawl.ProcessLisbonApartments, QuickCrawl.LisbonOnly: a failed load of a result page is not modelled. Both loops call `driver.get` on the result page unguarded (src/scrapers/idealista/idealista_scraper.py:683, src/scrapers/idealista/quick_test1.py:223); in the main scraper the exception ends the run through the `except` of `run` (src/scrapers/idealista/idealista_scraper.py:745). The model always loads the page.
- MainCrawl.ProcessLisbonApartments, QuickCrawl.LisbonOnly: the next-page lookup runs after the page's listings were loaded, on the page the driver then shows (src/scrapers/idealista/idealista_scraper.py:341 and :714; src/scrapers/idealista/quick_test1.py:140 and :246). That is the last listing page loaded, or the result page when no listing was tried. The model takes what the lookup reads as an input keyed by the result page's URL and page number. It does not tie it to the listing page shown, so the likely effect that pagination stops after any page with a new listing is not captured.
- QuickCrawl.LisbonOnly: an empty configuration list is reported as an `IndexError` result. The source lets the exception escape from `run` through its `finally`.
- CrawlProperties.CrawlCountsOnce: proved only for sites that list no link twice on a page. Without that, a repeated link is counted twice (CrawlProperties.RepeatedLinkCountedTwice).
- QuickCrawlProperties.LisbonOnlyDownloads: proved only when the link extraction never returns a link twice. The test scraper's extraction deduplicates, so its results always satisfy this (Harvest.ExtractUniqueLinks).
