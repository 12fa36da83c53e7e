/** The incremental scan (`CatalogScanner` in `catalog.py`) over the publications table (`database.py`). */
module Scan {
  import opened Common

  const REPORTED_FAILURE_LIMIT := 50

  /** `UNIQUE(library_id, relative_path)`. */
  datatype Place = Place(library: Key, path: Key)

  datatype Row = Row(id: Key, modified: int, size: nat)

  type Rows = map<Place, Row>

  /** An archive found on disk: its stat, whether reading it raises nothing, and whether inspecting it finds
      a sound archive. Nothing changes it while the scan runs. */
  datatype Found = Found(path: Key, modified: int, size: nat, readable: bool, sound: bool)

  /** What discovery comes to for a library: an unavailable root, or the archives below it. */
  datatype Library = Library(id: Key, name: Key, listing: Option<seq<Found>>)

  datatype Failure = Failure(library: Key, path: Option<Key>)

  datatype Report = Report(discovered: nat, indexed: nat, kept: nat, removed: nat, failed: nat, failures: seq<Failure>)

  // ---- What becomes of one archive ---------------------------------------------------------

  datatype Verdict = Unchanged | Indexed | Failed

  predicate Current(rows: Rows, at: Place, f: Found) {
    at in rows && rows[at].modified == f.modified && rows[at].size == f.size
  }

  function Judge(rows: Rows, library: Key, f: Found): Verdict {
    if !f.readable then Failed
    else if Current(rows, Place(library, f.path), f) then Unchanged
    else if f.sound then Indexed
    else Failed
  }

  /** `upsert_publication`: a row that exists keeps its identifier. */
  function Upserted(rows: Rows, at: Place, drawn: Key, modified: int, size: nat): Rows {
    rows[at := Row(if at in rows then rows[at].id else drawn, modified, size)]
  }

  function Take<T>(s: seq<T>, n: nat): seq<T> {
    if |s| <= n then s else s[..n]
  }

  function AddReports(left: Report, right: Report): Report {
    Report(left.discovered + right.discovered, left.indexed + right.indexed, left.kept + right.kept,
      left.removed + right.removed, left.failed + right.failed,
      Take(left.failures + right.failures, REPORTED_FAILURE_LIMIT))
  }

  // ---- What a scan promises ----------------------------------------------------------------

  ghost predicate DistinctPaths(listing: seq<Found>) {
    forall i, j :: 0 <= i < j < |listing| ==> listing[i].path != listing[j].path
  }

  ghost predicate Seen(listing: seq<Found>, path: Key) {
    exists i :: 0 <= i < |listing| && listing[i].path == path
  }

  /** After reading `f`: failed and unchanged archives keep whatever row they had, the others have a row with
      their stat and the identifier they had before, if any. */
  ghost predicate RowAfter(before: Rows, after: Rows, library: Key, f: Found) {
    var at := Place(library, f.path);
    if Judge(before, library, f) == Indexed
      then at in after && Current(after, at, f) && (at in before ==> after[at].id == before[at].id)
      else SameRow(before, after, at)
  }

  ghost predicate SameRow(before: Rows, after: Rows, at: Place) {
    (at in after <==> at in before) && (at in before ==> after[at] == before[at])
  }

  /** The first `n` archives have been read and nothing else has changed. */
  ghost predicate Upserting(before: Rows, after: Rows, library: Key, listing: seq<Found>, n: nat)
    requires n <= |listing|
  {
    && (forall i :: 0 <= i < n ==> RowAfter(before, after, library, listing[i]))
    && (forall at: Place :: at.library != library || !Seen(listing[..n], at.path) ==> SameRow(before, after, at))
  }

  /** The library's rows are those of its archives and nothing else. */
  ghost predicate Matches(before: Rows, after: Rows, library: Key, listing: seq<Found>) {
    && (forall i :: 0 <= i < |listing| ==> RowAfter(before, after, library, listing[i]))
    && (forall at :: at in after && at.library == library ==> Seen(listing, at.path))
  }

  /** That, and other libraries are untouched. */
  ghost predicate Reconciled(before: Rows, after: Rows, library: Key, listing: seq<Found>) {
    && Matches(before, after, library, listing)
    && (forall at: Place :: at.library != library ==> SameRow(before, after, at))
  }

  function CountOf(rows: Rows, library: Key, listing: seq<Found>, verdict: Verdict): nat {
    if listing == [] then 0
    else
      CountOf(rows, library, listing[..|listing| - 1], verdict)
      + (if Judge(rows, library, listing[|listing| - 1]) == verdict then 1 else 0)
  }

  function FailuresOf(rows: Rows, library: Library, listing: seq<Found>): seq<Failure> {
    if listing == [] then []
    else
      FailuresOf(rows, library, listing[..|listing| - 1])
      + (if Judge(rows, library.id, listing[|listing| - 1]) == Failed
         then [Failure(library.name, Some(listing[|listing| - 1].path))] else [])
  }

  /** Every archive is counted once, under what became of it. */
  ghost predicate Tallied(before: Rows, library: Library, listing: seq<Found>, report: Report) {
    && report.discovered == |listing|
    && report.indexed == CountOf(before, library.id, listing, Indexed)
    && report.kept == CountOf(before, library.id, listing, Unchanged)
    && report.failed == CountOf(before, library.id, listing, Failed)
    && report.failures == Take(FailuresOf(before, library, listing), REPORTED_FAILURE_LIMIT)
  }

  lemma {:induction false} CountsAddUp(rows: Rows, library: Key, listing: seq<Found>)
    ensures CountOf(rows, library, listing, Indexed) + CountOf(rows, library, listing, Unchanged)
      + CountOf(rows, library, listing, Failed) == |listing|
    decreases |listing|
  {
    if listing != [] {
      CountsAddUp(rows, library, listing[..|listing| - 1]);
    }
  }

  lemma {:induction false} FailuresCount(rows: Rows, library: Library, listing: seq<Found>)
    ensures |FailuresOf(rows, library, listing)| == CountOf(rows, library.id, listing, Failed)
    decreases |listing|
  {
    if listing != [] {
      FailuresCount(rows, library, listing[..|listing| - 1]);
    }
  }

  // ---- The table ---------------------------------------------------------------------------

  class Catalog {
    var rows: Rows

    constructor ()
      ensures rows == map[]
    {
      rows := map[];
    }

    method UpsertPublication(at: Place, drawn: Key, modified: int, size: nat)
      modifies this
      ensures rows == Upserted(old(rows), at, drawn, modified, size)
    {
      var id := if at in rows then rows[at].id else drawn;
      rows := rows[at := Row(id, modified, size)];
    }

    method RemovePublicationsExcept(seen: set<Key>, library: Key) returns (removed: nat)
      modifies this
      ensures rows == map at | at in old(rows) && (at.library != library || at.path in seen) :: old(rows)[at]
      ensures removed == |set at | at in old(rows) && at.library == library && at.path !in seen|
    {
      var gone := set at | at in rows && at.library == library && at.path !in seen;
      rows := rows - gone;
      removed := |gone|;
    }
  }

  // ---- The scanner -------------------------------------------------------------------------

  lemma OneMore(before: Rows, after: Rows, next: Rows, library: Key, listing: seq<Found>, n: nat)
    requires n < |listing| && DistinctPaths(listing) && Upserting(before, after, library, listing, n)
    requires RowAfter(before, next, library, listing[n])
    requires forall at :: at != Place(library, listing[n].path) ==> SameRow(after, next, at)
    ensures Upserting(before, next, library, listing, n + 1)
  {
    forall i | 0 <= i < n
      ensures RowAfter(before, next, library, listing[i])
    {
      assert RowAfter(before, after, library, listing[i]);
      assert SameRow(after, next, Place(library, listing[i].path));
    }
    forall at: Place | at.library != library || !Seen(listing[..n + 1], at.path)
      ensures SameRow(before, next, at)
    {
      assert !Seen(listing[..n], at.path) || at.library != library by {
        if Seen(listing[..n], at.path) {
          var i :| 0 <= i < n && listing[..n][i].path == at.path;
          assert listing[..n + 1][i].path == at.path;
        }
      }
      assert at != Place(library, listing[n].path) by {
        assert listing[..n + 1][n] == listing[n];
      }
      assert SameRow(before, after, at) && SameRow(after, next, at);
    }
  }

  lemma NotYetRead(before: Rows, after: Rows, library: Key, listing: seq<Found>, n: nat)
    requires n < |listing| && DistinctPaths(listing) && Upserting(before, after, library, listing, n)
    ensures SameRow(before, after, Place(library, listing[n].path))
    ensures Judge(after, library, listing[n]) == Judge(before, library, listing[n])
  {
  }

  class CatalogScanner {
    const repository: Catalog

    constructor (repository: Catalog)
      ensures this.repository == repository
    {
      this.repository := repository;
    }

    /** One archive of the loop: leave it, index it, or fail. */
    method ScanOne(library: Key, f: Found, drawn: Key) returns (verdict: Verdict)
      modifies repository
      ensures verdict == Judge(old(repository.rows), library, f)
      ensures RowAfter(old(repository.rows), repository.rows, library, f)
      ensures forall at :: at != Place(library, f.path) ==> SameRow(old(repository.rows), repository.rows, at)
    {
      var at := Place(library, f.path);
      if !f.readable {
        return Failed;
      }
      if Current(repository.rows, at, f) {
        return Unchanged;
      }
      if !f.sound {
        return Failed;
      }
      repository.UpsertPublication(at, drawn, f.modified, f.size);
      return Indexed;
    }

    /** `_scan_library`. `drawn` gives the identifier for a place that has none. */
    method ScanLibrary(library: Library, listing: seq<Found>, drawn: Place -> Key) returns (report: Report)
      requires DistinctPaths(listing)
      modifies repository
      ensures Reconciled(old(repository.rows), repository.rows, library.id, listing)
      ensures Tallied(old(repository.rows), library, listing, report)
      ensures report.removed == |Removed(old(repository.rows), library.id, listing)|
    {
      ghost var before := repository.rows;
      var seen := {};
      report := Report(0, 0, 0, 0, 0, []);
      for n := 0 to |listing|
        invariant Upserting(before, repository.rows, library.id, listing, n)
        invariant seen == PathsOf(listing[..n])
        invariant Tallied(before, library, listing[..n], report) && report.removed == 0
      {
        var f := listing[n];
        ghost var rows := repository.rows;
        NotYetRead(before, rows, library.id, listing, n);
        CountedOnce(before, library, listing, n, report);
        var verdict := ScanOne(library.id, f, drawn(Place(library.id, f.path)));
        RowAfterSame(before, rows, repository.rows, library.id, f);
        OneMore(before, rows, repository.rows, library.id, listing, n);
        hide Upserting, Tallied, Judge, RowAfter, SameRow, PathsOf;
        report := Counted(report, verdict, Failure(library.name, Some(f.path)));
        seen := seen + {f.path};
      }
      assert listing[..|listing|] == listing;
      ghost var rows := repository.rows;
      var removed := repository.RemovePublicationsExcept(seen, library.id);
      Pruned(before, rows, repository.rows, library.id, listing);
      report := report.(removed := removed);
    }

    /** `_scan_libraries`: a library that cannot be read is left as it was indexed, and reported. */
    method ScanLibraries(libraries: seq<Library>, drawn: Place -> Key) returns (totals: Report)
      requires DistinctLibraries(libraries)
      modifies repository
      ensures AllReconciled(old(repository.rows), repository.rows, libraries)
      ensures AllTallied(old(repository.rows), libraries, totals)
    {
      ghost var before := repository.rows;
      totals := Report(0, 0, 0, 0, 0, []);
      for n := 0 to |libraries|
        invariant AllReconciled(before, repository.rows, libraries[..n])
        invariant AllTallied(before, libraries[..n], totals)
      {
        var library := libraries[n];
        ghost var rows := repository.rows;
        UntouchedYet(before, rows, libraries, n);
        if library.listing.None? {
          SkipOne(before, rows, libraries, n);
          TallySkipped(before, libraries, n, totals);
          totals := AddReports(totals, Report(0, 0, 0, 0, 1, [Failure(library.name, None)]));
        } else {
          var report := ScanLibrary(library, library.listing.value, drawn);
          ScanNext(before, rows, repository.rows, libraries, n);
          TallyNext(before, rows, libraries, n, totals, report);
          totals := AddReports(totals, report);
        }
        hide AllReconciled, AllTallied, Reconciled, Tallied, AddReports;
      }
      assert libraries[..|libraries|] == libraries;
    }
  }

  lemma RowAfterSame(before: Rows, rows: Rows, after: Rows, library: Key, f: Found)
    requires SameRow(before, rows, Place(library, f.path)) && RowAfter(rows, after, library, f)
    ensures RowAfter(before, after, library, f)
  {
  }

  lemma Pruned(before: Rows, rows: Rows, after: Rows, library: Key, listing: seq<Found>)
    requires Upserting(before, rows, library, listing, |listing|)
    requires after == map at | at in rows && (at.library != library || at.path in PathsOf(listing)) :: rows[at]
    ensures Reconciled(before, after, library, listing)
    ensures (set at | at in rows && at.library == library && at.path !in PathsOf(listing))
      == Removed(before, library, listing)
  {
    assert listing[..|listing|] == listing;
    assert forall path :: path in PathsOf(listing) <==> Seen(listing, path);
    forall i | 0 <= i < |listing|
      ensures RowAfter(before, after, library, listing[i])
    {
      assert RowAfter(before, rows, library, listing[i]);
      assert listing[i].path in PathsOf(listing);
    }
    forall at: Place | at.library != library || at.path !in PathsOf(listing)
      ensures SameRow(before, rows, at)
    {
    }
    forall at: Place | at.library != library
      ensures SameRow(before, after, at)
    {
      assert SameRow(before, rows, at);
    }
  }

  function PathsOf(listing: seq<Found>): set<Key> {
    set i | 0 <= i < |listing| :: listing[i].path
  }

  function Removed(rows: Rows, library: Key, listing: seq<Found>): set<Place> {
    set at | at in rows && at.library == library && at.path !in PathsOf(listing)
  }

  /** The report with one more archive read. */
  function Counted(report: Report, verdict: Verdict, failure: Failure): Report {
    report.(discovered := report.discovered + 1,
      indexed := report.indexed + (if verdict == Indexed then 1 else 0),
      kept := report.kept + (if verdict == Unchanged then 1 else 0),
      failed := report.failed + (if verdict == Failed then 1 else 0),
      failures :=
        if verdict == Failed then Take(report.failures + [failure], REPORTED_FAILURE_LIMIT) else report.failures)
  }

  lemma CountedOnce(rows: Rows, library: Library, listing: seq<Found>, n: nat, report: Report)
    requires n < |listing| && Tallied(rows, library, listing[..n], report)
    ensures PathsOf(listing[..n + 1]) == PathsOf(listing[..n]) + {listing[n].path}
    ensures Tallied(rows, library, listing[..n + 1],
      Counted(report, Judge(rows, library.id, listing[n]), Failure(library.name, Some(listing[n].path))))
  {
    assert listing[..n + 1][..n] == listing[..n] && listing[..n + 1][n] == listing[n];
    TakeStep(FailuresOf(rows, library, listing[..n]), Failure(library.name, Some(listing[n].path)));
  }

  lemma TakeStep(failures: seq<Failure>, failure: Failure)
    ensures Take(Take(failures, REPORTED_FAILURE_LIMIT) + [failure], REPORTED_FAILURE_LIMIT)
      == Take(failures + [failure], REPORTED_FAILURE_LIMIT)
    ensures failures + [] == failures
  {
  }

  // ---- Several libraries -------------------------------------------------------------------

  ghost predicate DistinctLibraries(libraries: seq<Library>) {
    && (forall i, j :: 0 <= i < j < |libraries| ==> libraries[i].id != libraries[j].id)
    && (forall i :: 0 <= i < |libraries| && libraries[i].listing.Some? ==> DistinctPaths(libraries[i].listing.value))
  }

  ghost predicate Read(libraries: seq<Library>, id: Key) {
    exists i :: 0 <= i < |libraries| && libraries[i].id == id && libraries[i].listing.Some?
  }

  /** Each library that could be read matches its archives; every other row is untouched. */
  ghost predicate AllReconciled(before: Rows, after: Rows, libraries: seq<Library>) {
    && (forall i :: 0 <= i < |libraries| && libraries[i].listing.Some? ==>
         Matches(before, after, libraries[i].id, libraries[i].listing.value))
    && (forall at: Place :: !Read(libraries, at.library) ==> SameRow(before, after, at))
  }

  function TotalOf(rows: Rows, libraries: seq<Library>, verdict: Verdict): nat {
    if libraries == [] then 0
    else
      var last := libraries[|libraries| - 1];
      TotalOf(rows, libraries[..|libraries| - 1], verdict)
      + (if last.listing.Some? then CountOf(rows, last.id, last.listing.value, verdict) else 0)
  }

  function DiscoveredIn(libraries: seq<Library>): nat {
    if libraries == [] then 0
    else
      var last := libraries[|libraries| - 1];
      DiscoveredIn(libraries[..|libraries| - 1]) + (if last.listing.Some? then |last.listing.value| else 0)
  }

  function Unavailable(libraries: seq<Library>): nat {
    if libraries == [] then 0
    else Unavailable(libraries[..|libraries| - 1]) + (if libraries[|libraries| - 1].listing.None? then 1 else 0)
  }

  function RemovedIn(rows: Rows, libraries: seq<Library>): nat {
    if libraries == [] then 0
    else
      var last := libraries[|libraries| - 1];
      RemovedIn(rows, libraries[..|libraries| - 1])
      + (if last.listing.Some? then |Removed(rows, last.id, last.listing.value)| else 0)
  }

  function AllFailures(rows: Rows, libraries: seq<Library>): seq<Failure> {
    if libraries == [] then []
    else
      var last := libraries[|libraries| - 1];
      AllFailures(rows, libraries[..|libraries| - 1])
      + (if last.listing.Some? then FailuresOf(rows, last, last.listing.value) else [Failure(last.name, None)])
  }

  /** The totals are those of all libraries, judged by the rows there were at the start; an unavailable library
      counts as one failure; the first failures are reported, whichever library they come from. */
  ghost predicate AllTallied(before: Rows, libraries: seq<Library>, totals: Report) {
    && totals.discovered == DiscoveredIn(libraries)
    && totals.indexed == TotalOf(before, libraries, Indexed)
    && totals.kept == TotalOf(before, libraries, Unchanged)
    && totals.failed == TotalOf(before, libraries, Failed) + Unavailable(libraries)
    && totals.failures == Take(AllFailures(before, libraries), REPORTED_FAILURE_LIMIT)
    && totals.removed == RemovedIn(before, libraries)
  }

  lemma UntouchedYet(before: Rows, rows: Rows, libraries: seq<Library>, n: nat)
    requires n < |libraries| && DistinctLibraries(libraries) && AllReconciled(before, rows, libraries[..n])
    ensures forall at: Place :: at.library == libraries[n].id ==> SameRow(before, rows, at)
  {
  }

  lemma ReadOneMore(libraries: seq<Library>, n: nat, id: Key)
    requires n < |libraries|
    ensures Read(libraries[..n + 1], id) <==>
      Read(libraries[..n], id) || (libraries[n].id == id && libraries[n].listing.Some?)
  {
  }

  lemma SkipOne(before: Rows, rows: Rows, libraries: seq<Library>, n: nat)
    requires n < |libraries| && libraries[n].listing.None? && AllReconciled(before, rows, libraries[..n])
    ensures AllReconciled(before, rows, libraries[..n + 1])
  {
    forall at: Place | !Read(libraries[..n + 1], at.library)
      ensures SameRow(before, rows, at)
    {
      ReadOneMore(libraries, n, at.library);
    }
    forall i | 0 <= i < n + 1 && libraries[..n + 1][i].listing.Some?
      ensures Matches(before, rows, libraries[i].id, libraries[i].listing.value)
    {
      assert libraries[..n][i] == libraries[i];
    }
  }

  lemma StillMatches(before: Rows, rows: Rows, after: Rows, library: Key, listing: seq<Found>)
    requires Matches(before, rows, library, listing)
    requires forall at: Place :: at.library == library ==> SameRow(rows, after, at)
    ensures Matches(before, after, library, listing)
  {
  }

  lemma MatchesFrom(before: Rows, rows: Rows, after: Rows, library: Key, listing: seq<Found>)
    requires Matches(rows, after, library, listing)
    requires forall at: Place :: at.library == library ==> SameRow(before, rows, at)
    ensures Matches(before, after, library, listing)
  {
  }

  lemma ScanNext(before: Rows, rows: Rows, after: Rows, libraries: seq<Library>, n: nat)
    requires n < |libraries| && DistinctLibraries(libraries) && AllReconciled(before, rows, libraries[..n])
    requires libraries[n].listing.Some? && Reconciled(rows, after, libraries[n].id, libraries[n].listing.value)
    requires forall at: Place :: at.library == libraries[n].id ==> SameRow(before, rows, at)
    ensures AllReconciled(before, after, libraries[..n + 1])
  {
    forall at: Place | !Read(libraries[..n + 1], at.library)
      ensures SameRow(before, after, at)
    {
      ReadOneMore(libraries, n, at.library);
      assert SameRow(before, rows, at) && SameRow(rows, after, at);
    }
    MatchesFrom(before, rows, after, libraries[n].id, libraries[n].listing.value);
    forall i | 0 <= i < n + 1 && libraries[..n + 1][i].listing.Some?
      ensures Matches(before, after, libraries[i].id, libraries[i].listing.value)
    {
      if i < n {
        assert libraries[..n][i] == libraries[i] && libraries[i].id != libraries[n].id;
        StillMatches(before, rows, after, libraries[i].id, libraries[i].listing.value);
      }
    }
  }

  lemma TakeJoin<T>(a: seq<T>, b: seq<T>, n: nat)
    ensures Take(Take(a, n) + Take(b, n), n) == Take(a + b, n)
  {
  }

  lemma TallySkipped(before: Rows, libraries: seq<Library>, n: nat, totals: Report)
    requires n < |libraries| && libraries[n].listing.None? && AllTallied(before, libraries[..n], totals)
    ensures AllTallied(before, libraries[..n + 1],
      AddReports(totals, Report(0, 0, 0, 0, 1, [Failure(libraries[n].name, None)])))
  {
    assert libraries[..n + 1][..n] == libraries[..n] && libraries[..n + 1][n] == libraries[n];
    TakeJoin(AllFailures(before, libraries[..n]), [Failure(libraries[n].name, None)], REPORTED_FAILURE_LIMIT);
  }

  lemma {:induction false} JudgedAlike(before: Rows, rows: Rows, library: Library, listing: seq<Found>,
    verdict: Verdict)
    requires forall at: Place :: at.library == library.id ==> SameRow(before, rows, at)
    ensures CountOf(rows, library.id, listing, verdict) == CountOf(before, library.id, listing, verdict)
    ensures FailuresOf(rows, library, listing) == FailuresOf(before, library, listing)
    decreases |listing|
  {
    if listing != [] {
      JudgedAlike(before, rows, library, listing[..|listing| - 1], verdict);
      assert SameRow(before, rows, Place(library.id, listing[|listing| - 1].path));
    }
  }

  lemma RemovedAlike(before: Rows, rows: Rows, library: Key, listing: seq<Found>)
    requires forall at: Place :: at.library == library ==> SameRow(before, rows, at)
    ensures Removed(rows, library, listing) == Removed(before, library, listing)
  {
  }

  lemma TallyNext(before: Rows, rows: Rows, libraries: seq<Library>, n: nat, totals: Report, report: Report)
    requires n < |libraries| && libraries[n].listing.Some? && AllTallied(before, libraries[..n], totals)
    requires Tallied(rows, libraries[n], libraries[n].listing.value, report)
    requires report.removed == |Removed(rows, libraries[n].id, libraries[n].listing.value)|
    requires forall at: Place :: at.library == libraries[n].id ==> SameRow(before, rows, at)
    ensures AllTallied(before, libraries[..n + 1], AddReports(totals, report))
  {
    var (library, listing) := (libraries[n], libraries[n].listing.value);
    assert libraries[..n + 1][..n] == libraries[..n] && libraries[..n + 1][n] == library;
    JudgedAlike(before, rows, library, listing, Indexed);
    JudgedAlike(before, rows, library, listing, Unchanged);
    JudgedAlike(before, rows, library, listing, Failed);
    TakeJoin(AllFailures(before, libraries[..n]), FailuresOf(before, library, listing), REPORTED_FAILURE_LIMIT);
    assert Removed(rows, library.id, listing) == Removed(before, library.id, listing) by {
      RemovedAlike(before, rows, library.id, listing);
    }
    hide Judge, SameRow, Removed;
  }

  // ---- What reconciliation means -----------------------------------------------------------

  /** The paths indexed afterwards are exactly those found that were indexed before or are sound. */
  lemma IndexedPathsExact(before: Rows, after: Rows, library: Key, listing: seq<Found>, path: Key)
    requires DistinctPaths(listing) && Matches(before, after, library, listing)
    ensures Place(library, path) in after <==>
      exists i :: 0 <= i < |listing| && listing[i].path == path
        && (Place(library, path) in before || (listing[i].readable && listing[i].sound))
  {
  }

  /** An archive that did not fail has its file's time and size; a place that stays keeps its identifier. */
  lemma EntriesAreCurrent(before: Rows, after: Rows, library: Key, listing: seq<Found>, i: nat)
    requires i < |listing| && Matches(before, after, library, listing)
    ensures var at := Place(library, listing[i].path);
      && (Judge(before, library, listing[i]) != Failed ==> Current(after, at, listing[i]))
      && (at in before ==> at in after && after[at].id == before[at].id)
  {
  }

  lemma {:induction false} NothingToIndex(rows: Rows, again: Rows, library: Key, listing: seq<Found>)
    requires forall i :: 0 <= i < |listing| ==> RowAfter(rows, again, library, listing[i])
    ensures CountOf(again, library, listing, Indexed) == 0
    ensures CountOf(again, library, listing, Failed) == CountOf(rows, library, listing, Failed)
    decreases |listing|
  {
    if listing != [] {
      var (rest, last) := (listing[..|listing| - 1], listing[|listing| - 1]);
      assert forall i :: 0 <= i < |rest| ==> rest[i] == listing[i];
      NothingToIndex(rows, again, library, rest);
      assert RowAfter(rows, again, library, last);
      assert Judge(again, library, last) != Indexed;
    }
  }

  lemma NothingToRemove(before: Rows, after: Rows, library: Key, listing: seq<Found>)
    requires Matches(before, after, library, listing)
    ensures Removed(after, library, listing) == {}
  {
  }

  lemma SameRowsEqual(rows: Rows, again: Rows)
    requires forall at :: SameRow(rows, again, at)
    ensures again == rows
  {
    assert forall at :: at in again <==> at in rows by {
      forall at
        ensures at in again <==> at in rows
      {
        assert SameRow(rows, again, at);
      }
    }
    assert forall at :: at in rows ==> SameRow(rows, again, at);
  }

  /** Scanning again at once changes no row, indexes and removes nothing, and fails where the first did. */
  lemma SecondScanIsIdle(before: Rows, after: Rows, again: Rows, library: Library, listing: seq<Found>, first: Report,
    second: Report)
    requires Reconciled(before, after, library.id, listing) && Tallied(before, library, listing, first)
    requires Reconciled(after, again, library.id, listing) && Tallied(after, library, listing, second)
    requires second.removed == |Removed(after, library.id, listing)|
    ensures again == after && second.indexed == 0 && second.removed == 0 && second.failed == first.failed
  {
    NothingToIndex(before, after, library.id, listing);
    NothingToRemove(before, after, library.id, listing);
    hide RowAfter, SameRow, Removed, Matches;
    forall at: Place
      ensures SameRow(after, again, at)
    {
      SameAgain(before, after, again, library.id, listing, at);
    }
    SameRowsEqual(after, again);
  }

  lemma SameAgain(before: Rows, after: Rows, again: Rows, library: Key, listing: seq<Found>, at: Place)
    requires Reconciled(before, after, library, listing) && Reconciled(after, again, library, listing)
    ensures SameRow(after, again, at)
  {
  }

  /** Every archive found is counted once, and at most the first fifty failures are reported. */
  lemma ReportAddsUp(before: Rows, library: Library, listing: seq<Found>, report: Report)
    requires Tallied(before, library, listing, report)
    ensures report.discovered == report.indexed + report.kept + report.failed
    ensures |report.failures| ==
      if report.failed <= REPORTED_FAILURE_LIMIT then report.failed else REPORTED_FAILURE_LIMIT
  {
    CountsAddUp(before, library.id, listing);
    FailuresCount(before, library, listing);
  }

  lemma {:induction false} TotalsAddUp(before: Rows, libraries: seq<Library>, totals: Report)
    requires AllTallied(before, libraries, totals)
    ensures totals.discovered + Unavailable(libraries) == totals.indexed + totals.kept + totals.failed
  {
    SumsAddUp(before, libraries);
  }

  lemma {:induction false} SumsAddUp(rows: Rows, libraries: seq<Library>)
    ensures DiscoveredIn(libraries) ==
      TotalOf(rows, libraries, Indexed) + TotalOf(rows, libraries, Unchanged) + TotalOf(rows, libraries, Failed)
    decreases |libraries|
  {
    if libraries != [] {
      var last := libraries[|libraries| - 1];
      SumsAddUp(rows, libraries[..|libraries| - 1]);
      if last.listing.Some? {
        CountsAddUp(rows, last.id, last.listing.value);
      }
    }
  }
}
