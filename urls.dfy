/** URL and path helpers shared by the three scrapers: `str.split('/')`,
    the listing id taken from a listing URL, resolution of site-relative
    hrefs, `build_url` in its constant and mapping-based forms, the save
    paths of downloaded pages, and the description truncation. */
module Urls {
  import opened Wrappers
  import opened Text

  /** The fixed site origin every site-relative href is resolved against. */
  const Origin := "https://www.idealista.pt"

  /** The search page the main scraper always starts from. */
  const LisbonSearchUrl := "https://www.idealista.pt/en/comprar-casas/lisboa/"

  /** `s.split(sep)`: the pieces between separators, empty pieces kept. */
  function Split(s: string, sep: char): (parts: seq<string>)
    ensures |parts| >= 1
    ensures forall k :: 0 <= k < |parts| ==> sep !in parts[k]
    ensures sep !in s ==> parts == [s]
    ensures sep in s ==> |parts| >= 2
    decreases |s|
  {
    if s == [] then [[]]
    else
      var rest := Split(s[1..], sep);
      assert s == [s[0]] + s[1..];
      if s[0] == sep then [[]] + rest
      else
        assert sep !in [s[0]] + rest[0];
        [[s[0]] + rest[0]] + rest[1..]
  }

  /** `sep.join(parts)`. */
  function Join(parts: seq<string>, sep: char): string
    requires |parts| >= 1
    decreases |parts|
  {
    if |parts| == 1 then parts[0] else parts[0] + [sep] + Join(parts[1..], sep)
  }

  /** Splitting and joining back on the same separator gives the text back. */
  lemma {:induction false} JoinSplit(s: string, sep: char)
    ensures Join(Split(s, sep), sep) == s
    decreases |s|
  {
    if s != [] {
      var rest := Split(s[1..], sep);
      var parts := Split(s, sep);
      assert Join(rest, sep) == s[1..] by { JoinSplit(s[1..], sep); }
      assert s == [s[0]] + s[1..];
      if s[0] == sep {
        assert parts == [[]] + rest;
        assert parts[1..] == rest;
        assert Join(parts, sep) == [] + [sep] + Join(rest, sep);
      } else {
        assert parts == [[s[0]] + rest[0]] + rest[1..];
        if |rest| == 1 {
          assert Join(parts, sep) == [s[0]] + rest[0];
        } else {
          var more := Join(rest[1..], sep);
          assert parts[1..] == rest[1..];
          assert Join(rest, sep) == rest[0] + [sep] + more;
          assert Join(parts, sep) == ([s[0]] + rest[0]) + [sep] + more;
        }
      }
    }
  }

  /** Splitting a piece free of the separator, followed by more text, puts
      the piece in front of the first part of the rest. */
  lemma {:induction false} SplitPrefix(a: string, b: string, sep: char)
    requires sep !in a
    ensures Split(a + b, sep) == [a + Split(b, sep)[0]] + Split(b, sep)[1..]
    decreases |a|
  {
    var sb := Split(b, sep);
    if a == [] {
      assert a + b == b && a + sb[0] == sb[0];
      assert sb == [sb[0]] + sb[1..];
    } else {
      var s := a + b;
      assert s[0] == a[0] && s[1..] == a[1..] + b;
      assert s[0] != sep by {
        assert a[0] in a;
      }
      var rest := Split(s[1..], sep);
      assert rest == [a[1..] + sb[0]] + sb[1..] by {
        SplitPrefix(a[1..], b, sep);
      }
      assert Split(s, sep) == [[s[0]] + rest[0]] + rest[1..];
      assert [a[0]] + (a[1..] + sb[0]) == a + sb[0];
    }
  }

  /** Joining parts free of the separator and splitting again gives the
      parts back: the two are inverse on such parts. */
  lemma {:induction false} SplitJoin(parts: seq<string>, sep: char)
    requires |parts| >= 1
    requires forall k :: 0 <= k < |parts| ==> sep !in parts[k]
    ensures Split(Join(parts, sep), sep) == parts
    decreases |parts|
  {
    if |parts| == 1 {
      assert Split(parts[0], sep) == [parts[0]];
    } else {
      var tail := Join(parts[1..], sep);
      SplitJoin(parts[1..], sep);
      SplitPrefix(parts[0], [sep] + tail, sep);
      assert ([sep] + tail)[0] == sep && ([sep] + tail)[1..] == tail;
      var x := Split([sep] + tail, sep);
      assert x == [[]] + Split(tail, sep);
      assert parts[0] + [sep] + tail == parts[0] + ([sep] + tail);
      assert parts[0] + x[0] == parts[0];
      assert parts == [parts[0]] + parts[1..];
    }
  }

  /** Adding one more part at the end of a join. */
  lemma {:induction false} JoinSnoc(parts: seq<string>, last: string, sep: char)
    requires |parts| >= 1
    ensures Join(parts + [last], sep) == Join(parts, sep) + [sep] + last
    decreases |parts|
  {
    if |parts| > 1 {
      JoinSnoc(parts[1..], last, sep);
      assert (parts + [last])[1..] == parts[1..] + [last];
    }
  }

  /** `url.split('/')[-2] if '/' in url else f"temp_{hash(url)}"`; the hash
      is Python's built-in string hash, passed in. */
  function ListingId(url: string, hash: string -> int): (id: string)
    ensures '/' in url ==> '/' !in id
    ensures '/' !in url ==> |id| > 5 && id[..5] == "temp_"
  {
    if '/' in url then
      var parts := Split(url, '/');
      parts[|parts| - 2]
    else "temp_" + IntToDecimal(hash(url))
  }

  /** The segments of a path built from `prefix` and further segments. */
  lemma SplitExtend(prefix: string, segments: seq<string>)
    requires |segments| >= 1
    requires forall k :: 0 <= k < |segments| ==> '/' !in segments[k]
    ensures Split(prefix + "/" + Join(segments, '/'), '/') == Split(prefix, '/') + segments
  {
    var head := Split(prefix, '/');
    var all := head + segments;
    assert Join(all, '/') == prefix + "/" + Join(segments, '/') by {
      JoinSplit(prefix, '/');
      JoinAppend(head, segments, '/');
    }
    forall k | 0 <= k < |all|
      ensures '/' !in all[k]
    {
      if k >= |head| {
        assert all[k] == segments[k - |head|];
      }
    }
    SplitJoin(all, '/');
  }

  /** Joining two non-empty lists of parts puts a separator between them. */
  lemma {:induction false} JoinAppend(a: seq<string>, b: seq<string>, sep: char)
    requires |a| >= 1 && |b| >= 1
    ensures Join(a + b, sep) == Join(a, sep) + [sep] + Join(b, sep)
    decreases |a|
  {
    if |a| > 1 {
      JoinAppend(a[1..], b, sep);
      assert (a + b)[1..] == a[1..] + b;
    } else {
      assert (a + b)[1..] == b;
    }
  }

  /** "https://site/imovel/abc123/" gives "abc123": the segment before the
      trailing slash. */
  lemma ListingIdOfTrailingSlash(prefix: string, id: string, hash: string -> int)
    requires '/' !in id
    ensures ListingId(prefix + "/" + id + "/", hash) == id
  {
    SplitExtend(prefix, [id, ""]);
    assert Join([id, ""], '/') == id + "/";
    assert prefix + "/" + (id + "/") == prefix + "/" + id + "/";
  }

  /** Without the trailing slash the id is the parent segment:
      "https://site/imovel/abc123" gives "imovel". */
  lemma ListingIdWithoutTrailingSlash(prefix: string, parent: string, last: string, hash: string -> int)
    requires '/' !in parent && '/' !in last
    ensures ListingId(prefix + "/" + parent + "/" + last, hash) == parent
  {
    SplitExtend(prefix, [parent, last]);
    assert Join([parent, last], '/') == parent + "/" + last;
    assert prefix + "/" + (parent + "/" + last) == prefix + "/" + parent + "/" + last;
  }

  /** A URL without any slash gets "temp_" followed by its hash in decimal. */
  lemma ListingIdFromHash(url: string, hash: string -> int)
    requires '/' !in url
    ensures ListingId(url, hash)[5..] == IntToDecimal(hash(url))
  {
  }

  predicate StartsWith(s: string, p: string) {
    |p| <= |s| && s[..|p|] == p
  }

  /** A site-relative href (leading '/') is appended to the origin; any other
      href is kept as it is. */
  function ResolveHref(href: string): (url: string)
    ensures StartsWith(href, "/") ==> StartsWith(url, Origin) && url[|Origin|..] == href
    ensures !StartsWith(href, "/") ==> url == href
  {
    if StartsWith(href, "/") then Origin + href else href
  }

  /** Resolving twice changes nothing, since a resolved URL starts with the
      origin and never with '/'. */
  lemma ResolveHrefIdempotent(href: string)
    ensures ResolveHref(ResolveHref(href)) == ResolveHref(href)
  {
    if StartsWith(href, "/") {
      assert ResolveHref(href)[0] == 'h';
    }
  }

  /** A non-empty href resolves to a non-empty URL. */
  lemma ResolveHrefNonEmpty(href: string)
    requires href != ""
    ensures ResolveHref(href) != ""
  {
  }

  /** `if href:` then resolve: a missing element or attribute and an empty
      href give nothing. */
  function UsableHref(href: Option<string>): (r: Option<string>)
    ensures r.Some? <==> href.Some? && href.value != ""
    ensures r.Some? ==> r.value == ResolveHref(href.value) && r.value != ""
  {
    if href.Some? && href.value != "" then
      ResolveHrefNonEmpty(href.value);
      Some(ResolveHref(href.value))
    else None
  }

  /** `build_url` of the main scraper: whatever the arguments and the
      mapping, the Lisbon search page. */
  function BuildUrlFixed(mapping: UrlMapping, operation: string, propertyType: string, city: string): (url: string)
    ensures url == LisbonSearchUrl
    ensures StartsWith(url, Origin + "/en/") && url[|url| - 1] == '/'
  {
    LisbonSearchUrl
  }

  /** The three lookup tables of `url_mapping.json`. */
  datatype UrlMapping = UrlMapping(
    operations: map<string, string>,
    propertyTypes: map<string, string>,
    cities: map<string, string>)

  /** `build_url` of the two test scrapers: the mapped operation and property
      type joined by '-', then the mapped city. A name missing from its table
      is a `KeyError` naming it, raised for the first missing name in the
      order operation, property type, city. */
  function BuildUrl(m: UrlMapping, operation: string, propertyType: string, city: string): (r: Result<string, string>)
    ensures r.Ok? <==> operation in m.operations && propertyType in m.propertyTypes && city in m.cities
    ensures r.Err? ==> r.error == (if operation !in m.operations then operation
                                   else if propertyType !in m.propertyTypes then propertyType
                                   else city)
  {
    if operation !in m.operations then Err(operation)
    else if propertyType !in m.propertyTypes then Err(propertyType)
    else if city !in m.cities then Err(city)
    else Ok(Origin + "/en/" + m.operations[operation] + "-" + m.propertyTypes[propertyType] + "/" + m.cities[city] + "/")
  }

  /** Concatenating slash-free texts gives a slash-free text. */
  lemma NoSlashConcat(a: string, b: string)
    requires '/' !in a && '/' !in b
    ensures '/' !in a + b
  {
    forall k | 0 <= k < |a + b|
      ensures (a + b)[k] != '/'
    {
      if k >= |a| {
        assert (a + b)[k] == b[k - |a|];
      } else {
        assert (a + b)[k] == a[k];
      }
    }
  }

  /** Four slash-free segments joined by '/'. */
  lemma JoinFour(a: string, b: string, c: string, d: string)
    ensures Join([a, b, c, d], '/') == a + "/" + b + "/" + c + "/" + d
  {
    var segs := [a, b, c, d];
    assert Join(segs[3..], '/') == d;
    assert Join(segs[2..], '/') == c + "/" + d;
    assert Join(segs[1..], '/') == b + "/" + c + "/" + d;
  }

  lemma BuildUrlShape(origin: string, o: string, p: string, c: string)
    ensures origin + "/en/" + o + "-" + p + "/" + c + "/"
      == origin + "/" + ("en" + "/" + (o + "-" + p) + "/" + c + "/" + "")
  {
    assert "/en/" == "/" + "en" + "/";
  }

  /** The built URL's path is exactly "en", the mapped operation and type
      joined by '-', the mapped city, and an empty last segment. */
  lemma BuildUrlSegments(m: UrlMapping, operation: string, propertyType: string, city: string)
    requires operation in m.operations && propertyType in m.propertyTypes && city in m.cities
    requires '/' !in m.operations[operation] && '/' !in m.propertyTypes[propertyType] && '/' !in m.cities[city]
    ensures Split(BuildUrl(m, operation, propertyType, city).value, '/')
      == Split(Origin, '/') + ["en", m.operations[operation] + "-" + m.propertyTypes[propertyType], m.cities[city], ""]
  {
    var o, p, c := m.operations[operation], m.propertyTypes[propertyType], m.cities[city];
    var op := o + "-" + p;
    var segs := ["en", op, c, ""];
    var url := BuildUrl(m, operation, propertyType, city).value;
    assert '/' !in op by {
      NoSlashConcat(o, "-");
      NoSlashConcat(o + "-", p);
    }
    assert url == Origin + "/" + Join(segs, '/') by {
      BuildUrlJoin(m, operation, propertyType, city);
    }
    assert Split(Origin + "/" + Join(segs, '/'), '/') == Split(Origin, '/') + segs by {
      SplitExtend(Origin, segs);
    }
  }

  lemma BuildUrlJoin(m: UrlMapping, operation: string, propertyType: string, city: string)
    requires operation in m.operations && propertyType in m.propertyTypes && city in m.cities
    ensures BuildUrl(m, operation, propertyType, city).value
      == Origin + "/" + Join(["en", m.operations[operation] + "-" + m.propertyTypes[propertyType], m.cities[city], ""], '/')
  {
    var o, p, c := m.operations[operation], m.propertyTypes[propertyType], m.cities[city];
    JoinFour("en", o + "-" + p, c, "");
    BuildUrlShape(Origin, o, p, c);
  }

  /** quick_test's save path for the first result page of a job, built from
      the unmapped names. */
  function SavePath(runPath: string, operation: string, propertyType: string, city: string): string {
    runPath + "/" + operation + "/" + propertyType + "/" + city + "/page_1.html"
  }

  /** quick_test1's save path for a downloaded listing page. */
  function HtmlPath(runPath: string, operation: string, propertyType: string, city: string, listingId: string): string {
    runPath + "/" + operation + "/" + propertyType + "/" + city + "/listings/" + listingId + ".html"
  }

  /** The segments of a save path: the run path's, then the three names and
      the file name. So two jobs with slash-free names share a path only when
      they are the same job. */
  lemma SavePathSegments(runPath: string, operation: string, propertyType: string, city: string)
    requires '/' !in operation && '/' !in propertyType && '/' !in city
    ensures Split(SavePath(runPath, operation, propertyType, city), '/')
      == Split(runPath, '/') + [operation, propertyType, city, "page_1.html"]
  {
    var segs := [operation, propertyType, city, "page_1.html"];
    var tail := Join(segs, '/');
    assert tail == operation + "/" + propertyType + "/" + city + "/page_1.html" by {
      JoinFour(operation, propertyType, city, "page_1.html");
      assert "/" + "page_1.html" == "/page_1.html";
    }
    assert SavePath(runPath, operation, propertyType, city) == runPath + "/" + tail;
    SplitExtend(runPath, segs);
  }

  /** The segments of a listing's HTML path: the run path's, the three
      names, "listings" and the file named after the listing id. */
  lemma HtmlPathSegments(runPath: string, operation: string, propertyType: string, city: string, listingId: string)
    requires '/' !in operation && '/' !in propertyType && '/' !in city && '/' !in listingId
    ensures Split(HtmlPath(runPath, operation, propertyType, city, listingId), '/')
      == Split(runPath, '/') + [operation, propertyType, city, "listings", listingId + ".html"]
  {
    var file := listingId + ".html";
    NoSlashConcat(listingId, ".html");
    var segs := [operation, propertyType, city, "listings", file];
    var tail := Join(segs, '/');
    assert tail == operation + "/" + propertyType + "/" + city + "/listings/" + file by {
      JoinFour(propertyType, city, "listings", file);
      assert segs[1..] == [propertyType, city, "listings", file];
      assert "/" + "listings" + "/" == "/listings/";
    }
    assert HtmlPath(runPath, operation, propertyType, city, listingId) == runPath + "/" + tail;
    SplitExtend(runPath, segs);
  }

  lemma SavePathInjective(runPath: string, o1: string, t1: string, c1: string, o2: string, t2: string, c2: string)
    requires '/' !in o1 && '/' !in t1 && '/' !in c1
    requires '/' !in o2 && '/' !in t2 && '/' !in c2
    requires SavePath(runPath, o1, t1, c1) == SavePath(runPath, o2, t2, c2)
    ensures o1 == o2 && t1 == t2 && c1 == c2
  {
    SavePathSegments(runPath, o1, t1, c1);
    SavePathSegments(runPath, o2, t2, c2);
    var n := |Split(runPath, '/')|;
    assert Split(SavePath(runPath, o1, t1, c1), '/')[n] == o1;
    assert Split(SavePath(runPath, o2, t2, c2), '/')[n] == o2;
    assert Split(SavePath(runPath, o1, t1, c1), '/')[n + 1] == t1;
    assert Split(SavePath(runPath, o2, t2, c2), '/')[n + 1] == t2;
    assert Split(SavePath(runPath, o1, t1, c1), '/')[n + 2] == c1;
    assert Split(SavePath(runPath, o2, t2, c2), '/')[n + 2] == c2;
  }

  /** The segments of a run path: data, bronze, idealista, the run folder and
      an empty segment after the final slash. */
  lemma RunPathSegments(runId: string)
    requires '/' !in runId
    ensures Split(RunPath(runId), '/') == ["data", "bronze", "idealista", "run_" + runId, ""]
  {
    var run := "run_" + runId;
    assert '/' !in run by {
      NoSlashConcat("run_", runId);
    }
    assert Split("data" + "/" + "bronze" + "/" + "idealista" + "/" + run + "/", '/')
      == Split("data", '/') + ["bronze", "idealista", run, ""] by {
      FolderSegments("data", "bronze", "idealista", run);
    }
    assert Split("data", '/') == ["data"] by {
      assert '/' !in "data";
    }
  }

  /** A folder path `root/a/b/c/` with slash-free names. */
  lemma FolderSegments(root: string, a: string, b: string, c: string)
    requires '/' !in a && '/' !in b && '/' !in c
    ensures Split(root + "/" + a + "/" + b + "/" + c + "/", '/') == Split(root, '/') + [a, b, c, ""]
  {
    var segs := [a, b, c, ""];
    assert Join(segs, '/') == a + "/" + b + "/" + c + "/" + "" by {
      JoinFour(a, b, c, "");
    }
    assert root + "/" + a + "/" + b + "/" + c + "/" == root + "/" + Join(segs, '/');
    SplitExtend(root, segs);
  }

  /** The run path of the test scrapers already ends in '/', so the save path
      holds an empty segment ("run_X//sale/..."). */
  lemma SavePathDoubleSlash(runId: string, operation: string, propertyType: string, city: string)
    requires '/' !in runId && '/' !in operation && '/' !in propertyType && '/' !in city
    ensures var parts := Split(SavePath(RunPath(runId), operation, propertyType, city), '/');
      |parts| == 9 && parts[4] == ""
  {
    RunPathSegments(runId);
    SavePathSegments(RunPath(runId), operation, propertyType, city);
  }

  /** `f"data/bronze/idealista/run_{run_id}/"`; the run id is a timestamp. */
  function RunPath(runId: string): string {
    "data" + "/" + "bronze" + "/" + "idealista" + "/" + ("run_" + runId) + "/"
  }

  const DescriptionLimit := 200

  /** `d[:200] + "..." if len(d) > 200 else d`. */
  function TruncateDescription(d: string): (r: string)
    ensures |r| <= DescriptionLimit + 3
    ensures |d| > DescriptionLimit ==>
      |r| == DescriptionLimit + 3 && r[..DescriptionLimit] == d[..DescriptionLimit] && r[DescriptionLimit..] == "..."
    ensures |d| <= DescriptionLimit ==> r == d
  {
    if |d| > DescriptionLimit then d[..DescriptionLimit] + "..." else d
  }

  /** Truncation changes the text exactly when it is longer than the limit,
      except for a 203-character text that already ends in "..." where it
      happens to reproduce it. */
  lemma TruncateUnchangedIff(d: string)
    ensures TruncateDescription(d) == d <==>
      |d| <= DescriptionLimit || (|d| == DescriptionLimit + 3 && d[DescriptionLimit..] == "...")
  {
    if |d| > DescriptionLimit {
      var r := TruncateDescription(d);
      if |d| == DescriptionLimit + 3 && d[DescriptionLimit..] == "..." {
        assert d == d[..DescriptionLimit] + d[DescriptionLimit..];
      }
    }
  }

  /** Truncating a truncated description changes nothing. */
  lemma TruncateIdempotent(d: string)
    ensures TruncateDescription(TruncateDescription(d)) == TruncateDescription(d)
  {
    var r := TruncateDescription(d);
    if |d| > DescriptionLimit {
      assert r[..DescriptionLimit] == d[..DescriptionLimit];
      assert r == r[..DescriptionLimit] + "...";
    }
  }
}
