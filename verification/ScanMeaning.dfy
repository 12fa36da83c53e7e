/** What a scan does to each archive and reports about it, written out. */
module ScanMeaning {
  import opened Common
  import opened Scan

  /** The archive can be read and is indexed with the time and size it has now. */
  predicate UpToDate(rows: Rows, library: Key, f: Found) {
    var at := Place(library, f.path);
    f.readable && at in rows && rows[at].modified == f.modified && rows[at].size == f.size
  }

  predicate Renewed(rows: Rows, library: Key, f: Found) {
    f.readable && f.sound && !UpToDate(rows, library, f)
  }

  predicate Broken(rows: Rows, library: Key, f: Found) {
    !f.readable || (!f.sound && !UpToDate(rows, library, f))
  }

  /** A reconciled library: an archive that is new or changed, and sound, has a row with its time and size, under the
      identifier it had if it had one; any other archive has the row it had, if it had one; and nothing else of the
      library has a row. */
  lemma RowsExactly(before: Rows, after: Rows, library: Key, listing: seq<Found>, path: Key)
    requires DistinctPaths(listing) && Matches(before, after, library, listing)
    ensures var at := Place(library, path);
      && (forall f :: f in listing && f.path == path && Renewed(before, library, f) ==>
        && at in after
        && after[at].modified == f.modified
        && after[at].size == f.size
        && (at in before ==> after[at].id == before[at].id))
      && (forall f :: f in listing && f.path == path && !Renewed(before, library, f) ==>
        (at in after <==> at in before) && (at in before ==> after[at] == before[at]))
      && ((forall f :: f in listing ==> f.path != path) ==> at !in after)
  {
    forall f | f in listing && f.path == path
      ensures RowAfter(before, after, library, f)
    {
      var i :| 0 <= i < |listing| && listing[i] == f;
    }
    if Place(library, path) in after {
      assert Seen(listing, path);
      var i :| 0 <= i < |listing| && listing[i].path == path;
      assert listing[i] in listing;
    }
  }

  function Which(listing: seq<Found>, holds: Found -> bool): set<int> {
    set i | 0 <= i < |listing| && holds(listing[i])
  }

  lemma WhichStep(listing: seq<Found>, holds: Found -> bool)
    requires listing != []
    ensures |Which(listing, holds)| ==
      |Which(listing[..|listing| - 1], holds)| + if holds(listing[|listing| - 1]) then 1 else 0
  {
    var (rest, last) := (listing[..|listing| - 1], |listing| - 1);
    if holds(listing[last]) {
      assert Which(listing, holds) == Which(rest, holds) + {last};
    } else {
      assert Which(listing, holds) == Which(rest, holds);
    }
  }

  lemma {:induction false} CountsExactly(rows: Rows, library: Key, listing: seq<Found>)
    ensures CountOf(rows, library, listing, Indexed) == |Which(listing, f => Renewed(rows, library, f))|
    ensures CountOf(rows, library, listing, Unchanged) == |Which(listing, f => UpToDate(rows, library, f))|
    ensures CountOf(rows, library, listing, Failed) == |Which(listing, f => Broken(rows, library, f))|
    decreases |listing|
  {
    if listing != [] {
      CountsExactly(rows, library, listing[..|listing| - 1]);
      WhichStep(listing, f => Renewed(rows, library, f));
      WhichStep(listing, f => UpToDate(rows, library, f));
      WhichStep(listing, f => Broken(rows, library, f));
      hide Which;
    }
  }

  lemma {:induction false} FailureAt(rows: Rows, library: Library, listing: seq<Found>, i: nat)
    requires i < |listing| && Broken(rows, library.id, listing[i])
    ensures var n := CountOf(rows, library.id, listing[..i], Failed);
      && n < |FailuresOf(rows, library, listing)|
      && FailuresOf(rows, library, listing)[n] == Failure(library.name, Some(listing[i].path))
    decreases |listing|
  {
    var rest := listing[..|listing| - 1];
    FailuresCount(rows, library, rest);
    if i < |rest| {
      FailureAt(rows, library, rest, i);
      assert rest[..i] == listing[..i] && rest[i] == listing[i];
    } else {
      assert rest == listing[..i];
    }
  }

  /** The report of a library: how many archives were found, how many were new or changed, up to date, or unreadable or
      unsound; and the first fifty of the last kind, each by the library's name and its path. */
  lemma ReportExactly(before: Rows, library: Library, listing: seq<Found>, report: Report, i: nat)
    requires Tallied(before, library, listing, report)
    ensures report.discovered == |listing|
    ensures report.indexed == |Which(listing, f => Renewed(before, library.id, f))|
    ensures report.kept == |Which(listing, f => UpToDate(before, library.id, f))|
    ensures report.failed == |Which(listing, f => Broken(before, library.id, f))|
    ensures |report.failures| == if report.failed <= 50 then report.failed else 50
    ensures i < |listing| && Broken(before, library.id, listing[i]) ==>
      var n := |Which(listing[..i], f => Broken(before, library.id, f))|;
      n < 50 ==> n < |report.failures| && report.failures[n] == Failure(library.name, Some(listing[i].path))
  {
    CountsExactly(before, library.id, listing);
    FailuresCount(before, library, listing);
    if i < |listing| && Broken(before, library.id, listing[i]) {
      CountsExactly(before, library.id, listing[..i]);
      FailureAt(before, library, listing, i);
    }
    hide CountOf, FailuresOf, Which, Broken;
  }
}
