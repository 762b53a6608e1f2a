/** What the test run guarantees: which searches it visits, how many, in
    which order, and how a missing mapping entry or a failed download
    affects it. */
module JobsProperties {
  import opened Wrappers
  import opened Urls
  import opened Jobs

  lemma OneMore(n: nat, x: nat)
    requires n >= 1
    ensures (n - 1) * x + x == n * x
  {
  }

  lemma {:induction false} TypeJobsLength(operation: string, types: seq<string>, cities: seq<string>)
    ensures |TypeJobs(operation, types, cities)| == |types| * |cities|
    decreases |types|
  {
    if types != [] {
      var n, x := |types|, |cities|;
      assert |TypeJobs(operation, types[..n - 1], cities)| == (n - 1) * x by {
        TypeJobsLength(operation, types[..n - 1], cities);
      }
      assert (n - 1) * x + x == n * x by {
        OneMore(n, x);
      }
    }
  }

  lemma {:induction false} AllJobsLength(operations: seq<string>, types: seq<string>, cities: seq<string>)
    ensures |AllJobs(operations, types, cities)| == |operations| * (|types| * |cities|)
    decreases |operations|
  {
    if operations != [] {
      var n, x := |operations|, |types| * |cities|;
      assert |AllJobs(operations[..n - 1], types, cities)| == (n - 1) * x by {
        AllJobsLength(operations[..n - 1], types, cities);
      }
      assert |TypeJobs(operations[n - 1], types, cities)| == x by {
        TypeJobsLength(operations[n - 1], types, cities);
      }
      assert (n - 1) * x + x == n * x by {
        OneMore(n, x);
      }
    }
  }

  /** The run attempts |operations| × |property types| × min(3, |cities|)
      searches. */
  lemma JobCount(operations: seq<string>, types: seq<string>, cities: seq<string>)
    ensures |RunJobs(operations, types, cities)| ==
      |operations| * (|types| * (if |cities| < CityLimit then |cities| else CityLimit))
  {
    AllJobsLength(operations, types, TestCities(cities));
  }

  lemma {:induction false} TypeJobsMember(operation: string, types: seq<string>, cities: seq<string>, j: Job)
    ensures j in TypeJobs(operation, types, cities) <==>
      j.operation == operation && j.propertyType in types && j.city in cities
    decreases |types|
  {
    if types != [] {
      var init := types[..|types| - 1];
      var last := types[|types| - 1];
      TypeJobsMember(operation, init, cities, j);
      assert types == init + [last];
      var cj := CityJobs(operation, last, cities);
      if j.city in cities && j.operation == operation && j.propertyType == last {
        var c :| 0 <= c < |cities| && cities[c] == j.city;
        assert cj[c] == j;
      }
    }
  }

  lemma {:induction false} AllJobsMember(operations: seq<string>, types: seq<string>, cities: seq<string>, j: Job)
    ensures j in AllJobs(operations, types, cities) <==>
      j.operation in operations && j.propertyType in types && j.city in cities
    decreases |operations|
  {
    if operations != [] {
      var init := operations[..|operations| - 1];
      var last := operations[|operations| - 1];
      AllJobsMember(init, types, cities, j);
      TypeJobsMember(last, types, cities, j);
      assert operations == init + [last];
    }
  }

  /** The run visits exactly the searches made of a configured operation, a
      configured property type and one of the first three cities. */
  lemma JobsAreCombinations(operations: seq<string>, types: seq<string>, cities: seq<string>, j: Job)
    ensures j in RunJobs(operations, types, cities) <==>
      j.operation in operations && j.propertyType in types && j.city in TestCities(cities)
  {
    AllJobsMember(operations, types, TestCities(cities), j);
  }

  /** The jobs of two lists of property types run one after the other. */
  lemma {:induction false} TypeJobsConcat(operation: string, x: seq<string>, y: seq<string>, cities: seq<string>)
    ensures TypeJobs(operation, x + y, cities) == TypeJobs(operation, x, cities) + TypeJobs(operation, y, cities)
    decreases |y|
  {
    if y == [] {
      assert x + y == x;
    } else {
      var init := y[..|y| - 1];
      assert (x + y)[..|x + y| - 1] == x + init;
      assert (x + y)[|x + y| - 1] == y[|y| - 1];
      TypeJobsConcat(operation, x, init, cities);
    }
  }

  /** The jobs of two lists of operations run one after the other. */
  lemma {:induction false} AllJobsConcat(x: seq<string>, y: seq<string>, types: seq<string>, cities: seq<string>)
    ensures AllJobs(x + y, types, cities) == AllJobs(x, types, cities) + AllJobs(y, types, cities)
    decreases |y|
  {
    if y == [] {
      assert x + y == x;
    } else {
      var init := y[..|y| - 1];
      assert (x + y)[..|x + y| - 1] == x + init;
      assert (x + y)[|x + y| - 1] == y[|y| - 1];
      var last := TypeJobs(y[|y| - 1], types, cities);
      assert AllJobs(x + y, types, cities) == AllJobs(x + init, types, cities) + last;
      assert AllJobs(y, types, cities) == AllJobs(init, types, cities) + last;
      AllJobsConcat(x, init, types, cities);
    }
  }

  /** Nested order within an operation: the jobs of the property types
      before b, then b's cities in order, then the types after b. */
  lemma TypeJobsSplit(operation: string, types: seq<string>, cities: seq<string>, b: nat)
    requires b < |types|
    ensures TypeJobs(operation, types, cities) ==
      TypeJobs(operation, types[..b], cities) + CityJobs(operation, types[b], cities) + TypeJobs(operation, types[b + 1..], cities)
  {
    assert types == types[..b + 1] + types[b + 1..];
    TypeJobsConcat(operation, types[..b + 1], types[b + 1..], cities);
    assert types[..b + 1][..b] == types[..b];
  }

  /** Nested order: the jobs of the operations before a, then a's jobs, then
      the operations after a. */
  lemma AllJobsSplit(operations: seq<string>, types: seq<string>, cities: seq<string>, a: nat)
    requires a < |operations|
    ensures AllJobs(operations, types, cities) ==
      AllJobs(operations[..a], types, cities) + TypeJobs(operations[a], types, cities) + AllJobs(operations[a + 1..], types, cities)
  {
    assert operations == operations[..a + 1] + operations[a + 1..];
    AllJobsConcat(operations[..a + 1], operations[a + 1..], types, cities);
    assert operations[..a + 1][..a] == operations[..a];
  }

  /** The download the run makes for a search whose URL builds. */
  function Expected(setup: RunSetup, j: Job, k: nat): PageDownload
    requires JobUrl(setup.mapping, j).Ok?
  {
    var url := JobUrl(setup.mapping, j).value;
    PageDownload(url, SavePath(setup.runPath, j.operation, j.propertyType, j.city), setup.downloadOk(url, k))
  }

  /** The downloads are the searches in order, each with its URL and save
      path, as long as the URLs build; the first search whose URL does not
      build ends the run with its `KeyError`, and only that ends it: a failed
      download does not. */
  lemma {:induction false} RunFromNotStarted(setup: RunSetup, jobs: seq<Job>)
    ensures var f := RunFrom(setup, NotStarted, jobs);
      && |f.downloads| <= |jobs|
      && (forall k :: 0 <= k < |f.downloads| ==>
            JobUrl(setup.mapping, jobs[k]).Ok? && f.downloads[k] == Expected(setup, jobs[k], k))
      && (f.aborted.None? ==> |f.downloads| == |jobs|)
      && (f.aborted.Some? ==>
            |f.downloads| < |jobs| && JobUrl(setup.mapping, jobs[|f.downloads|]) == Err(f.aborted.value))
    decreases |jobs|
  {
    if jobs != [] {
      var init := jobs[..|jobs| - 1];
      RunFromNotStarted(setup, init);
      var f0 := RunFrom(setup, NotStarted, init);
      var f := RunFrom(setup, NotStarted, jobs);
      assert forall k :: 0 <= k < |init| ==> init[k] == jobs[k];
      if f0.aborted.None? && JobUrl(setup.mapping, jobs[|jobs| - 1]).Ok? {
        assert f.downloads == f0.downloads + [Expected(setup, jobs[|jobs| - 1], |init|)];
      }
    }
  }

  /** The run downloads every search exactly when every URL builds; a
      failed download never stops it. */
  lemma RunCompletes(setup: RunSetup, operations: seq<string>, types: seq<string>, cities: seq<string>)
    ensures var jobs := RunJobs(operations, types, cities);
      var f := Run(setup, operations, types, cities);
      && (f.aborted.None? <==> forall k :: 0 <= k < |jobs| ==> JobUrl(setup.mapping, jobs[k]).Ok?)
      && (f.aborted.None? ==>
            |f.downloads| == |jobs| && forall k :: 0 <= k < |jobs| ==> f.downloads[k] == Expected(setup, jobs[k], k))
  {
    RunFromNotStarted(setup, RunJobs(operations, types, cities));
  }

  /** A missing mapping entry ends the run with a `KeyError` naming it, at
      the first search that needs it; the downloads before it stay. */
  lemma RunAborts(setup: RunSetup, operations: seq<string>, types: seq<string>, cities: seq<string>, i: nat)
    requires var jobs := RunJobs(operations, types, cities);
      i < |jobs| && JobUrl(setup.mapping, jobs[i]).Err?
      && forall k :: 0 <= k < i ==> JobUrl(setup.mapping, jobs[k]).Ok?
    ensures var jobs := RunJobs(operations, types, cities);
      var f := Run(setup, operations, types, cities);
      && f.aborted == Some(JobUrl(setup.mapping, jobs[i]).error)
      && |f.downloads| == i
      && forall k :: 0 <= k < i ==> f.downloads[k] == Expected(setup, jobs[k], k)
  {
    var jobs := RunJobs(operations, types, cities);
    RunFromNotStarted(setup, jobs);
  }
}
