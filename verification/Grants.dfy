/** Read grants: how a submitted set is normalised (`authorization.py`), stored and asked (`database.py`). */
module Grants {
  import opened Common
  import opened FileNames

  /** An optional text as Python sees it: missing, empty, or a value. */
  datatype Field = Missing | Empty | Is(value: Key)

  datatype Grant = Grant(library: Key, category: Field, series: Field)

  datatype Publication = Publication(library: Option<Key>, category: Key, series: Option<Key>)

  const COMICS := Key("comics")
  const MANGA := Key("manga")

  /** Case-insensitive comparison of ASCII text. */
  predicate SameText(a: Key, b: Key) {
    Folded(a.name) == Folded(b.name)
  }

  /** `_grant_matches`: an empty category or series restricts nothing. */
  predicate Matches(g: Grant, p: Publication) {
    && p.library == Some(g.library)
    && (g.category.Is? ==> SameText(g.category.value, p.category))
    && (g.series.Is? ==> p.series == Some(g.series.value))
  }

  ghost predicate Admits(grants: set<Grant>, p: Publication) {
    exists g :: g in grants && Matches(g, p)
  }

  // ---- Normalising -------------------------------------------------------------------------

  function LibraryWide(grants: set<Grant>): set<Key> {
    set g | g in grants && g.category.Missing? :: g.library
  }

  function CategoryWide(grants: set<Grant>): set<(Key, Key)> {
    set g | g in grants && g.category.Is? && g.series.Missing? :: (g.library, g.category.value)
  }

  predicate Narrow(g: Grant, grants: set<Grant>) {
    && g.library !in LibraryWide(grants)
    && !(g.category.Is? && (g.library, g.category.value) in CategoryWide(grants))
  }

  /** The grants `replace` stores. */
  function Normalised(grants: set<Grant>): set<Grant> {
    (set g | g in grants && Narrow(g, grants))
    + (set library | library in LibraryWide(grants) :: Grant(library, Missing, Missing))
    + (set wide | wide in CategoryWide(grants) && wide.0 !in LibraryWide(grants) :: Grant(wide.0, Is(wide.1), Missing))
  }

  lemma InLibraryWide(grants: set<Grant>, library: Key)
    ensures library in LibraryWide(grants) <==> exists g :: g in grants && g.category.Missing? && g.library == library
  {
  }

  /** What normalising keeps, said of one grant at a time. */
  lemma NormalisedExact(grants: set<Grant>, g: Grant)
    ensures g in Normalised(grants) <==>
      || (g == Grant(g.library, Missing, Missing) && g.library in LibraryWide(grants))
      || (g.library !in LibraryWide(grants) && g in grants
          && (g.category.Is? && !g.series.Missing? ==> Grant(g.library, g.category, Missing) !in grants))
  {
  }

  /** A series grant that names no category. */
  predicate Malformed(g: Grant) {
    g.category.Missing? && g.series.Is?
  }

  /** A grant of everything of a category in a library. */
  predicate Covers(w: Grant, library: Key, category: Key) {
    w.library == library && !w.series.Is? && (w.category.Is? ==> SameText(w.category.value, category))
  }

  ghost predicate Covered(grants: set<Grant>, library: Key, category: Key) {
    exists w :: w in grants && Covers(w, library, category)
  }

  /** Every malformed grant comes with one of all its library has of the category. */
  ghost predicate Excused(grants: set<Grant>, category: Key) {
    forall m :: m in grants && Malformed(m) ==> Covered(grants, m.library, category)
  }

  /** Nothing is lost: what a submitted grant admits, a stored one does. */
  lemma NormalisedAdmitsAll(grants: set<Grant>, g: Grant, p: Publication)
    requires g in grants && Matches(g, p)
    ensures Admits(Normalised(grants), p)
  {
    hide SameText;
    if g.library in LibraryWide(grants) {
      var wide := Grant(g.library, Missing, Missing);
      NormalisedExact(grants, wide);
      assert Matches(wide, p);
    } else if g.category.Is? && Grant(g.library, g.category, Missing) in grants {
      var wide := Grant(g.library, g.category, Missing);
      NormalisedExact(grants, wide);
      assert Matches(wide, p);
    } else {
      NormalisedExact(grants, g);
    }
  }

  /** Something is gained only where a malformed grant was taken for its whole library. */
  lemma NormalisedAdmitsOnly(grants: set<Grant>, g: Grant, p: Publication)
    requires g in Normalised(grants) && Matches(g, p) && Excused(grants, p.category)
    ensures Admits(grants, p)
  {
    NormalisedExact(grants, g);
    hide SameText, Normalised;
    if g !in grants {
      InLibraryWide(grants, g.library);
      var m :| m in grants && m.category.Missing? && m.library == g.library;
      if Malformed(m) {
        assert Covered(grants, m.library, p.category);
        var w :| w in grants && Covers(w, m.library, p.category);
        assert Matches(w, p);
      } else {
        assert Matches(m, p);
      }
    }
  }

  // ---- When the meaning is kept ------------------------------------------------------------

  /** A publication as a scan files it. */
  predicate Scanned(p: Publication) {
    p.library.Some? && (p.category == COMICS || p.category == MANGA) && p.series.Some?
  }

  ghost predicate SameAnswer(grants: set<Grant>, p: Publication) {
    Admits(Normalised(grants), p) <==> Admits(grants, p)
  }

  lemma {:induction false} UnnamedSeries(grants: set<Grant>) returns (series: Key)
    ensures forall g :: g in grants ==> g.series != Is(series)
  {
    var n := LongerThanAll(grants);
    series := Key(seq(n, _ => 'x'));
  }

  lemma {:induction false} LongerThanAll(grants: set<Grant>) returns (n: nat)
    ensures forall g :: g in grants && g.series.Is? ==> |g.series.value.name| < n
    decreases grants
  {
    if grants == {} {
      n := 0;
    } else {
      var g := Pick(grants);
      var rest := grants - {g};
      var m := LongerThanAll(rest);
      var own := if g.series.Is? then |g.series.value.name| + 1 else 0;
      n := if own > m then own else m;
      forall h | h in grants && h.series.Is?
        ensures |h.series.value.name| < n
      {
        assert h == g || h in rest;
      }
    }
  }

  lemma SameAdmitted(grants: set<Grant>, p: Publication)
    requires Excused(grants, p.category)
    ensures SameAnswer(grants, p)
  {
    hide Normalised, Matches;
    if Admits(grants, p) {
      var g :| g in grants && Matches(g, p);
      NormalisedAdmitsAll(grants, g, p);
    }
    if Admits(Normalised(grants), p) {
      var g :| g in Normalised(grants) && Matches(g, p);
      NormalisedAdmitsOnly(grants, g, p);
    }
  }

  /** A malformed grant without company admits a volume of the category that nobody granted. */
  lemma Gained(grants: set<Grant>, category: Key) returns (p: Publication)
    requires !Excused(grants, category)
    ensures p.library.Some? && p.category == category && p.series.Some? && !SameAnswer(grants, p)
  {
    var m :| m in grants && Malformed(m) && !Covered(grants, m.library, category);
    var series := UnnamedSeries(grants);
    p := Publication(Some(m.library), category, Some(series));
    var wide := Grant(m.library, Missing, Missing);
    InLibraryWide(grants, m.library);
    NormalisedExact(grants, wide);
    hide SameText, Normalised;
    assert Matches(wide, p) && Admits(Normalised(grants), p);
    forall g | g in grants
      ensures !Matches(g, p)
    {
      assert !Covers(g, m.library, category);
    }
  }

  /** Over the publications of one category, whichever it is, normalising changes nothing if and only if every
      series grant without a category comes with a grant of all its library has of that category. */
  lemma MeaningKeptInCategory(grants: set<Grant>, category: Key)
    ensures Excused(grants, category) <==>
      forall p: Publication :: p.category == category && p.series.Some? ==> SameAnswer(grants, p)
  {
    hide SameAnswer;
    if Excused(grants, category) {
      forall p: Publication | p.category == category
        ensures SameAnswer(grants, p)
      {
        SameAdmitted(grants, p);
      }
    } else {
      var p := Gained(grants, category);
    }
  }

  /** Over the publications a scan files, normalising changes nothing if and only if every series grant without
      a category comes with grants of all the comics and all the manga of its library, or of both at once. */
  lemma MeaningKeptExactly(grants: set<Grant>)
    ensures (forall p :: Scanned(p) ==> SameAnswer(grants, p)) <==> Excused(grants, COMICS) && Excused(grants, MANGA)
  {
    hide SameAnswer, Excused;
    if Excused(grants, COMICS) && Excused(grants, MANGA) {
      forall p | Scanned(p)
        ensures SameAnswer(grants, p)
      {
        SameAdmitted(grants, p);
      }
    } else {
      var p := Gained(grants, if Excused(grants, COMICS) then MANGA else COMICS);
      assert Scanned(p);
    }
  }

  /** Normalising twice is normalising once. */
  lemma NormalisedIsSettled(grants: set<Grant>)
    ensures Normalised(Normalised(grants)) == Normalised(grants)
  {
  }

  // ---- No grant covered by another ---------------------------------------------------------

  /** The categories a stored grant may name. */
  predicate KnownCategory(g: Grant) {
    g.category.Missing? || g.category == Is(COMICS) || g.category == Is(MANGA)
  }

  lemma DifferentCategories(a: Grant, b: Grant)
    requires KnownCategory(a) && KnownCategory(b) && a.category.Is? && b.category.Is? && a.category != b.category
    ensures !SameText(a.category.value, b.category.value)
  {
  }

  /** A publication `g` admits and, where `g` leaves a choice, of no series that `other` names. */
  function Example(g: Grant, other: Grant): Publication {
    var unnamed := Key(if other.series.Is? then other.series.value.name + "x" else "x");
    Publication(Some(g.library), if g.category.Is? then g.category.value else COMICS,
      Some(if g.series.Is? then g.series.value else unnamed))
  }

  /** In what is stored, one grant covers another only if it names an empty series where the other names one:
      grants from a caller that leaves the series out instead never do. */
  lemma CoveredOnlyByEmptySeries(grants: set<Grant>, a: Grant, b: Grant)
    requires a in Normalised(grants) && b in Normalised(grants) && a != b && KnownCategory(a) && KnownCategory(b)
    ensures (forall p :: Scanned(p) && Matches(b, p) ==> Matches(a, p)) <==>
      (a.library == b.library && a.category == b.category && a.series.Empty? && b.series.Is?)
  {
    NormalisedExact(grants, a);
    NormalisedExact(grants, b);
    assert Matches(b, Example(b, a)) && Scanned(Example(b, a));
    assert a.series.Is? ==> |a.series.value.name + "x"| > |a.series.value.name|;
    if a.library == b.library && a.category.Is? && b.category.Is? && a.category != b.category {
      DifferentCategories(a, b);
    }
    if a.category.Missing? {
      InLibraryWide(grants, a.library);
    }
    if b.category.Missing? {
      InLibraryWide(grants, b.library);
    }
    hide SameText, Normalised, LibraryWide;
    if forall p :: Scanned(p) && Matches(b, p) ==> Matches(a, p) {
      assert Matches(a, Example(b, a));
    }
  }

  // ---- Storing and asking ------------------------------------------------------------------

  /** A row of the grants table; `None` is the empty text. */
  datatype Row = Row(library: Key, category: Option<Key>, series: Option<Key>)

  function Column(f: Field): Option<Key> {
    if f.Is? then Some(f.value) else None
  }

  /** `grant.category or ""`. */
  function Stored(g: Grant): Row {
    Row(g.library, Column(g.category), Column(g.series))
  }

  function StoredAll(grants: set<Grant>): set<Row> {
    set g | g in grants :: Stored(g)
  }

  /** The table's checks. */
  predicate RowOk(row: Row) {
    && (row.category.None? || row.category == Some(COMICS) || row.category == Some(MANGA))
    && (row.series.Some? ==> row.category.Some?)
  }

  /** `_access_grant`. */
  function Loaded(row: Row): Grant {
    Grant(row.library, if row.category.Some? then Is(row.category.value) else Missing,
      if row.series.Some? then Is(row.series.value) else Missing)
  }

  /** The condition of `_scope_predicate` on one row. */
  predicate RowMatches(row: Row, p: Publication) {
    && p.library == Some(row.library)
    && (|| row.category.None?
        || (SameText(row.category.value, p.category) && (row.series.None? || p.series == row.series)))
  }

  ghost predicate SqlAdmits(rows: set<Row>, p: Publication) {
    exists row :: row in rows && RowMatches(row, p)
  }

  /** The stored form of a normalised grant passes the table's checks, and no two share a row. */
  lemma RowsPassChecks(grants: set<Grant>, a: Grant, b: Grant)
    requires a in Normalised(grants) && b in Normalised(grants) && KnownCategory(a) && KnownCategory(b)
    ensures RowOk(Stored(a)) && (Stored(a) == Stored(b) ==> a == b)
  {
  }

  /** The database's condition and Python's agree on rows that pass the checks. */
  lemma RowMatchesAsGrant(row: Row, p: Publication)
    requires RowOk(row)
    ensures RowMatches(row, p) <==> Matches(Loaded(row), p)
  {
  }

  /** From submitted grants to the query: the database's scope over what is stored admits just what the
      normalised grants do. */
  lemma ScopeAgrees(grants: set<Grant>, p: Publication)
    requires forall g :: g in Normalised(grants) ==> KnownCategory(g)
    ensures SqlAdmits(StoredAll(Normalised(grants)), p) <==> Admits(Normalised(grants), p)
  {
    var stored := Normalised(grants);
    forall g | g in stored
      ensures RowMatches(Stored(g), p) <==> Matches(g, p)
    {
      RowsPassChecks(grants, g, g);
      hide SameText, Normalised;
    }
    hide Normalised, RowMatches, Matches;
    if Admits(stored, p) {
      var g :| g in stored && Matches(g, p);
      assert Stored(g) in StoredAll(stored);
    }
  }

  // ---- Readers -----------------------------------------------------------------------------

  datatype User = User(id: Key, enabled: bool, isAdmin: bool)

  datatype Scope = Everything | Nothing | GrantsOf(user: Key)

  type Table = map<Key, set<Row>>

  function ReadScope(user: User): Scope {
    if !user.enabled then Nothing else if user.isAdmin then Everything else GrantsOf(user.id)
  }

  /** `_scope_predicate`. */
  ghost predicate Visible(table: Table, scope: Scope, p: Publication) {
    match scope
    case Everything => true
    case Nothing => false
    case GrantsOf(user) => SqlAdmits(GetOr(table, user, {}), p)
  }

  /** `GrantPolicy.can_read`. */
  ghost predicate CanRead(table: Table, user: User, p: Option<Publication>) {
    if p.None? then ReadScope(user) == Everything
    else if user.enabled && user.isAdmin then true
    else if !user.enabled then false
    else exists row :: row in GetOr(table, user.id, {}) && Matches(Loaded(row), p.value)
  }

  ghost predicate TableOk(table: Table) {
    forall user, row :: user in table && row in table[user] ==> RowOk(row)
  }

  /** What a listing shows a reader and what opening a publication allows are the same. */
  lemma PolicyAgreesWithQueries(table: Table, user: User, p: Publication)
    requires TableOk(table)
    ensures CanRead(table, user, Some(p)) <==> Visible(table, ReadScope(user), p)
  {
    forall row | row in GetOr(table, user.id, {})
      ensures RowMatches(row, p) <==> Matches(Loaded(row), p)
    {
      RowMatchesAsGrant(row, p);
    }
    hide RowMatches, Matches;
  }

  /** Who may read what: a disabled user nothing; an administrator everything, with or without a publication to look
      at; anybody else what one of the stored rows names. */
  lemma ReadersExactly(table: Table, user: User, p: Publication)
    requires TableOk(table)
    ensures CanRead(table, user, None) <==> user.enabled && user.isAdmin
    ensures CanRead(table, user, Some(p)) <==>
      && user.enabled
      && (user.isAdmin || exists row ::
        && row in GetOr(table, user.id, {})
        && p.library == Some(row.library)
        && (row.category.None? || Folded(row.category.value.name) == Folded(p.category.name))
        && (row.series.None? || p.series == row.series))
  {
    forall row | row in GetOr(table, user.id, {})
      ensures Matches(Loaded(row), p) <==>
        && p.library == Some(row.library)
        && (row.category.None? || Folded(row.category.value.name) == Folded(p.category.name))
        && (row.series.None? || p.series == row.series)
    {
      assert RowOk(row);
    }
    hide Matches;
  }

  // ---- Replacing ---------------------------------------------------------------------------

  datatype SeriesRow = SeriesRow(library: Key, category: Key)

  datatype Refusal = NoUser | Administrator | NoLibrary | BadCategory | NoSeries

  class AccessService {
    var users: map<Key, User>
    var libraries: set<Key>
    var series: map<Key, SeriesRow>
    var table: Table

    constructor (users: map<Key, User>, libraries: set<Key>, series: map<Key, SeriesRow>)
      ensures this.users == users && this.libraries == libraries && this.series == series && table == map[]
    {
      this.users, this.libraries, this.series, table := users, libraries, series, map[];
    }

    /** `_validate_grant`. */
    function Fault(g: Grant): (fault: Option<Refusal>)
      reads this
      ensures fault.None? ==> KnownCategory(g) && g.library in libraries
    {
      if g.library !in libraries then Some(NoLibrary)
      else if !KnownCategory(g) then Some(BadCategory)
      else if g.series.Is?
        && !(g.series.value in series && g.category.Is? && series[g.series.value].library == g.library
             && SameText(series[g.series.value].category, g.category.value))
      then Some(NoSeries)
      else None
    }

    method Replace(userId: Key, grants: set<Grant>) returns (refused: Option<Refusal>)
      modifies this`table
      ensures refused == Some(NoUser) <==> userId !in users
      ensures userId in users ==> (refused == Some(Administrator) <==> users[userId].isAdmin)
      ensures refused.Some? ==> table == old(table)
      ensures refused.None? ==>
        && table == old(table)[userId := StoredAll(Normalised(grants))]
        && (forall g :: g in Normalised(grants) ==> KnownCategory(g))
        && (forall row :: row in table[userId] ==> RowOk(row))
      ensures userId in users && !users[userId].isAdmin ==>
        (refused.None? <==> forall g :: g in Normalised(grants) ==>
          && g.library in libraries
          && (g.category == Missing || g.category == Is(Key("comics")) || g.category == Is(Key("manga")))
          && (g.series.Is? ==>
            && g.series.value in series
            && series[g.series.value].library == g.library
            && g.category != Missing
            && Folded(series[g.series.value].category.name) == Folded(g.category.value.name)))
    {
      if userId !in users {
        return Some(NoUser);
      }
      if users[userId].isAdmin {
        return Some(Administrator);
      }
      var fault := FirstFault(Normalised(grants));
      if fault.Some? {
        return fault;
      }
      forall g | g in Normalised(grants)
        ensures KnownCategory(g) && RowOk(Stored(g))
      {
        RowsPassChecks(grants, g, g);
      }
      hide Normalised, Stored, RowOk, KnownCategory, Fault;
      table := table[userId := StoredAll(Normalised(grants))];
      return None;
    }

    method FirstFault(grants: set<Grant>) returns (fault: Option<Refusal>)
      ensures fault.None? <==> forall g :: g in grants ==> Fault(g).None?
      ensures fault.Some? ==> exists g :: g in grants && Fault(g) == fault
      ensures fault != Some(NoUser) && fault != Some(Administrator)
    {
      var faulty := set g | g in grants && Fault(g).Some?;
      if faulty == {} {
        assert forall g :: g in grants ==> g !in faulty;
        return None;
      }
      ghost var some := Pick(faulty);
      var g :| g in faulty;
      return Fault(g);
    }
  }

  /** End to end: once a reader's grants have been replaced, the reader can open, and is shown, exactly what the
      submitted grants admit, provided every series grant without a category is excused for its category. */
  lemma ReplacedMeansSubmitted(table: Table, user: User, grants: set<Grant>, p: Publication)
    requires user.enabled && !user.isAdmin && TableOk(table)
    requires user.id in table && table[user.id] == StoredAll(Normalised(grants))
    requires forall g :: g in Normalised(grants) ==> KnownCategory(g)
    requires Excused(grants, p.category)
    ensures CanRead(table, user, Some(p)) <==> Visible(table, ReadScope(user), p)
    ensures CanRead(table, user, Some(p)) <==>
      exists g ::
        && g in grants
        && p.library == Some(g.library)
        && (g.category.Is? ==> Folded(g.category.value.name) == Folded(p.category.name))
        && (g.series.Is? ==> p.series == Some(g.series.value))
  {
    assert Admits(grants, p) <==> exists g :: g in grants && Matches(g, p);
    PolicyAgreesWithQueries(table, user, p);
    ScopeAgrees(grants, p);
    SameAdmitted(grants, p);
    hide CanRead, SqlAdmits, Admits, Normalised;
  }
}
