/** The first test scraper's run (`run` of the mapping-based scraper): every
    operation, every property type and the first three cities, each
    downloaded to its own folder. */
module Jobs {
  import opened Wrappers
  import opened Urls

  const CityLimit := 3

  /** One search to download. */
  datatype Job = Job(operation: string, propertyType: string, city: string)

  /** `cities[:3]`. */
  function TestCities(cities: seq<string>): (r: seq<string>)
    ensures |r| == if |cities| < CityLimit then |cities| else CityLimit
    ensures r == cities[..|r|]
  {
    if |cities| <= CityLimit then cities else cities[..CityLimit]
  }

  /** The innermost loop: one property type of one operation, for each city. */
  function CityJobs(operation: string, propertyType: string, cities: seq<string>): (r: seq<Job>)
    ensures |r| == |cities|
    ensures forall c :: 0 <= c < |cities| ==> r[c] == Job(operation, propertyType, cities[c])
  {
    seq(|cities|, c requires 0 <= c < |cities| => Job(operation, propertyType, cities[c]))
  }

  /** The middle loop: one operation, each property type in turn. */
  function TypeJobs(operation: string, types: seq<string>, cities: seq<string>): (r: seq<Job>)
    decreases |types|
  {
    if types == [] then []
    else TypeJobs(operation, types[..|types| - 1], cities) + CityJobs(operation, types[|types| - 1], cities)
  }

  /** All three loops, operation outermost. */
  function AllJobs(operations: seq<string>, types: seq<string>, cities: seq<string>): (r: seq<Job>)
    decreases |operations|
  {
    if operations == [] then []
    else AllJobs(operations[..|operations| - 1], types, cities) + TypeJobs(operations[|operations| - 1], types, cities)
  }

  /** The jobs of `run`, in the order it visits them. */
  function RunJobs(operations: seq<string>, types: seq<string>, cities: seq<string>): seq<Job> {
    AllJobs(operations, types, TestCities(cities))
  }

  /** One call of `download_page`: the search URL, the file it writes, and
      whether loading and saving went through. */
  datatype PageDownload = PageDownload(url: string, path: string, ok: bool)

  /** What a run did: the downloads it attempted, and the `KeyError` that
      ended it early, if one did. */
  datatype RunOutcome = RunOutcome(downloads: seq<PageDownload>, aborted: Option<string>)

  /** How the run is set up: the URL mapping, the run folder, and whether
      each download goes through, given how many came before. */
  datatype RunSetup = RunSetup(mapping: UrlMapping, runPath: string, downloadOk: (string, nat) -> bool)

  function JobUrl(m: UrlMapping, j: Job): Result<string, string> {
    BuildUrl(m, j.operation, j.propertyType, j.city)
  }

  /** One job: build the URL (a missing mapping entry raises and ends the
      run), then download to the job's save path; a failed download is
      recorded and the run goes on. Nothing happens after the run ended. */
  function Step(setup: RunSetup, r: RunOutcome, j: Job): RunOutcome {
    if r.aborted.Some? then r
    else
      match JobUrl(setup.mapping, j)
      case Err(key) => r.(aborted := Some(key))
      case Ok(url) =>
        var path := SavePath(setup.runPath, j.operation, j.propertyType, j.city);
        r.(downloads := r.downloads + [PageDownload(url, path, setup.downloadOk(url, |r.downloads|))])
  }

  /** The jobs run in order from `r`. */
  function RunFrom(setup: RunSetup, r: RunOutcome, jobs: seq<Job>): RunOutcome
    decreases |jobs|
  {
    if jobs == [] then r
    else Step(setup, RunFrom(setup, r, jobs[..|jobs| - 1]), jobs[|jobs| - 1])
  }

  const NotStarted := RunOutcome([], None)

  /** `run`. */
  function Run(setup: RunSetup, operations: seq<string>, types: seq<string>, cities: seq<string>): RunOutcome {
    RunFrom(setup, NotStarted, RunJobs(operations, types, cities))
  }

  lemma {:induction false} RunFromAppend(setup: RunSetup, r: RunOutcome, a: seq<Job>, b: seq<Job>)
    ensures RunFrom(setup, r, a + b) == RunFrom(setup, RunFrom(setup, r, a), b)
    decreases |b|
  {
    if b == [] {
      assert a + b == a;
    } else {
      assert (a + b)[..|a + b| - 1] == a + b[..|b| - 1];
      RunFromAppend(setup, r, a, b[..|b| - 1]);
    }
  }

  /** Once aborted, the run does nothing more. */
  lemma {:induction false} AbortedStays(setup: RunSetup, r: RunOutcome, jobs: seq<Job>)
    requires r.aborted.Some?
    ensures RunFrom(setup, r, jobs) == r
    decreases |jobs|
  {
    if jobs != [] {
      AbortedStays(setup, r, jobs[..|jobs| - 1]);
    }
  }

  /** A run that aborted within the first `n` jobs ends as it was then. */
  lemma AbortedEnds(setup: RunSetup, r: RunOutcome, jobs: seq<Job>, n: nat)
    requires n <= |jobs| && RunFrom(setup, r, jobs[..n]).aborted.Some?
    ensures RunFrom(setup, r, jobs) == RunFrom(setup, r, jobs[..n])
  {
    assert jobs[..n] + jobs[n..] == jobs;
    RunFromAppend(setup, r, jobs[..n], jobs[n..]);
    AbortedStays(setup, RunFrom(setup, r, jobs[..n]), jobs[n..]);
  }

  /** The innermost loop, over the test cities. */
  method RunCities(setup: RunSetup, operation: string, propertyType: string, cities: seq<string>, r: RunOutcome)
    returns (out: RunOutcome)
    requires r.aborted.None?
    ensures out == RunFrom(setup, r, CityJobs(operation, propertyType, cities))
  {
    var jobs := CityJobs(operation, propertyType, cities);
    out := r;
    for c := 0 to |cities|
      invariant out.aborted.None?
      invariant out == RunFrom(setup, r, jobs[..c])
    {
      assert jobs[..c + 1][..c] == jobs[..c];
      var city := cities[c];
      var url := BuildUrl(setup.mapping, operation, propertyType, city);
      if url.Err? {
        out := out.(aborted := Some(url.error));
        assert out == RunFrom(setup, r, jobs[..c + 1]);
        AbortedEnds(setup, r, jobs, c + 1);
        return;
      }
      var filename := SavePath(setup.runPath, operation, propertyType, city);
      var ok := setup.downloadOk(url.value, |out.downloads|);
      out := out.(downloads := out.downloads + [PageDownload(url.value, filename, ok)]);
    }
    assert jobs[..|cities|] == jobs;
  }

  /** The middle loop, over the property types. */
  method RunTypes(setup: RunSetup, operation: string, types: seq<string>, cities: seq<string>, r: RunOutcome)
    returns (out: RunOutcome)
    requires r.aborted.None?
    ensures out == RunFrom(setup, r, TypeJobs(operation, types, cities))
  {
    out := r;
    for p := 0 to |types|
      invariant out.aborted.None?
      invariant out == RunFrom(setup, r, TypeJobs(operation, types[..p], cities))
    {
      assert types[..p + 1][..p] == types[..p];
      ghost var before := TypeJobs(operation, types[..p], cities);
      ghost var done := TypeJobs(operation, types[..p + 1], cities);
      assert done == before + CityJobs(operation, types[p], cities);
      RunFromAppend(setup, r, before, CityJobs(operation, types[p], cities));
      out := RunCities(setup, operation, types[p], cities, out);
      if out.aborted.Some? {
        ghost var all := TypeJobs(operation, types, cities);
        TypeJobsPrefix(operation, types, p + 1, cities);
        RunFromAppend(setup, r, done, all[|done|..]);
        AbortedStays(setup, out, all[|done|..]);
        return;
      }
    }
    assert types[..|types|] == types;
  }

  /** The outer loop, over the operations. */
  method RunOperations(setup: RunSetup, operations: seq<string>, types: seq<string>, cities: seq<string>)
    returns (out: RunOutcome)
    ensures out == RunFrom(setup, NotStarted, AllJobs(operations, types, cities))
  {
    out := NotStarted;
    for o := 0 to |operations|
      invariant out.aborted.None?
      invariant out == RunFrom(setup, NotStarted, AllJobs(operations[..o], types, cities))
    {
      assert operations[..o + 1][..o] == operations[..o];
      ghost var before := AllJobs(operations[..o], types, cities);
      ghost var done := AllJobs(operations[..o + 1], types, cities);
      assert done == before + TypeJobs(operations[o], types, cities);
      RunFromAppend(setup, NotStarted, before, TypeJobs(operations[o], types, cities));
      out := RunTypes(setup, operations[o], types, cities, out);
      if out.aborted.Some? {
        ghost var all := AllJobs(operations, types, cities);
        AllJobsPrefix(operations, o + 1, types, cities);
        RunFromAppend(setup, NotStarted, done, all[|done|..]);
        AbortedStays(setup, out, all[|done|..]);
        return;
      }
    }
    assert operations[..|operations|] == operations;
  }

  /** `run`: the three nested loops over the test cities. */
  method RunAllJobs(setup: RunSetup, operations: seq<string>, types: seq<string>, cities: seq<string>)
    returns (out: RunOutcome)
    ensures out == Run(setup, operations, types, cities)
  {
    out := RunOperations(setup, operations, types, TestCities(cities));
  }

  /** The jobs of the first `p` property types come first among an
      operation's jobs. */
  lemma {:induction false} TypeJobsPrefix(operation: string, types: seq<string>, p: nat, cities: seq<string>)
    requires p <= |types|
    ensures var short := TypeJobs(operation, types[..p], cities);
      && |short| <= |TypeJobs(operation, types, cities)|
      && TypeJobs(operation, types, cities) == short + TypeJobs(operation, types, cities)[|short|..]
    decreases |types| - p
  {
    if p < |types| {
      TypeJobsPrefix(operation, types, p + 1, cities);
      assert types[..p + 1][..p] == types[..p];
      var short := TypeJobs(operation, types[..p], cities);
      var longer := TypeJobs(operation, types[..p + 1], cities);
      var all := TypeJobs(operation, types, cities);
      assert longer == short + CityJobs(operation, types[p], cities);
      assert all == longer + all[|longer|..];
      assert all[..|short|] == short;
    } else {
      assert types[..p] == types;
    }
  }

  /** The jobs of the first `o` operations come first. */
  lemma {:induction false} AllJobsPrefix(operations: seq<string>, o: nat, types: seq<string>, cities: seq<string>)
    requires o <= |operations|
    ensures var short := AllJobs(operations[..o], types, cities);
      && |short| <= |AllJobs(operations, types, cities)|
      && AllJobs(operations, types, cities) == short + AllJobs(operations, types, cities)[|short|..]
    decreases |operations| - o
  {
    if o < |operations| {
      AllJobsPrefix(operations, o + 1, types, cities);
      assert operations[..o + 1][..o] == operations[..o];
      var short := AllJobs(operations[..o], types, cities);
      var longer := AllJobs(operations[..o + 1], types, cities);
      var all := AllJobs(operations, types, cities);
      assert longer == short + TypeJobs(operations[o], types, cities);
      assert all == longer + all[|longer|..];
      assert all[..|short|] == short;
    } else {
      assert operations[..o] == operations;
    }
  }
}
