/** The scan behind Python's `re.search` and behind every "first match wins"
    loop of the scraper: try positions in increasing order and keep the first
    one that yields a match. */
module Search {
  import opened Wrappers

  /** The first position in `[from, n)` at which `at` matches, with its match. */
  function FirstFrom<T>(at: nat -> Option<T>, from: nat, n: nat): Option<(nat, T)>
    decreases n - from
  {
    if from >= n then None
    else match at(from)
      case Some(v) => Some((from, v))
      case None => FirstFrom(at, from + 1, n)
  }

  /** The scan returns a matching position, nothing before it matches, and it
      returns nothing only when no position matches. */
  lemma {:induction false} FirstFromSpec<T>(at: nat -> Option<T>, from: nat, n: nat)
    decreases n - from
    ensures var r := FirstFrom(at, from, n);
      && (r.Some? ==> from <= r.value.0 < n && at(r.value.0) == Some(r.value.1))
      && (r.Some? ==> forall j :: from <= j < r.value.0 ==> at(j).None?)
      && (r.None? ==> forall j :: from <= j < n ==> at(j).None?)
  {
    if from < n && at(from).None? {
      FirstFromSpec(at, from + 1, n);
    }
  }

  /** The match found at the leftmost matching position below `n`. */
  function Leftmost<T>(at: nat -> Option<T>, n: nat): Option<T> {
    match FirstFrom(at, 0, n)
    case Some((_, v)) => Some(v)
    case None => None
  }

  /** A match at `i` with no match before it is what the scan returns. */
  lemma LeftmostIs<T>(at: nat -> Option<T>, n: nat, i: nat, v: T)
    requires i < n && at(i) == Some(v)
    requires forall j :: 0 <= j < i ==> at(j).None?
    ensures Leftmost(at, n) == Some(v)
  {
    FirstFromSpec(at, 0, n);
    var r := FirstFrom(at, 0, n);
    assert r.Some? && r.value.0 == i;
  }

  /** The scan finds nothing exactly when no position matches. */
  lemma LeftmostNone<T>(at: nat -> Option<T>, n: nat)
    ensures Leftmost(at, n).None? <==> forall j :: 0 <= j < n ==> at(j).None?
  {
    FirstFromSpec(at, 0, n);
    var r := FirstFrom(at, 0, n);
    if r.Some? { assert at(r.value.0).Some?; }
  }

  /** Whatever the scan returns was matched at some position, and nothing
      before that position matched. */
  lemma LeftmostSome<T>(at: nat -> Option<T>, n: nat) returns (i: nat)
    requires Leftmost(at, n).Some?
    ensures i < n && at(i) == Leftmost(at, n)
    ensures forall j :: 0 <= j < i ==> at(j).None?
  {
    FirstFromSpec(at, 0, n);
    i := FirstFrom(at, 0, n).value.0;
  }

  /** Two scans that agree at every position below `n` return the same. */
  lemma LeftmostPointwise<T>(at1: nat -> Option<T>, at2: nat -> Option<T>, n: nat)
    requires forall j :: 0 <= j < n ==> at1(j) == at2(j)
    ensures Leftmost(at1, n) == Leftmost(at2, n)
  {
    LeftmostNone(at1, n);
    LeftmostNone(at2, n);
    if Leftmost(at1, n).Some? {
      var i := LeftmostSome(at1, n);
      LeftmostIs(at2, n, i, Leftmost(at1, n).value);
    }
  }
}
