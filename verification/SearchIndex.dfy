/** The search index kept by rebuilding one series at a time (`database.py`): its tables, the transactions that
    change them, and the query that reads them. */
module SearchIndex {
  import opened Common

  /** A publication's place: its library and the parts of its path. Category and series name are compared
      without case, so they stand for their folded form here. */
  datatype Place = Place(library: Key, folder: Key, category: Key, series: Key, filename: Key)

  datatype Series = Series(library: Key, category: Key, name: Key)

  datatype Publication = Publication(id: Key, series: Key, title: Key)

  type Values = map<Key, seq<Key>>

  /** Provider values and the administrator's overrides. */
  datatype Metadata = Metadata(values: Values, overrides: Values)

  /** What an index row is written from. */
  datatype Doc = Doc(name: Key, metadata: Values, volumes: map<Place, Key>)

  datatype Kind = Creator | Publisher | Tag | Status | Year

  datatype Facet = Facet(kind: Kind, value: Key)

  datatype Tables = Tables(series: map<Key, Series>, publications: map<Place, Publication>,
    metadata: map<Key, Metadata>, index: map<Key, seq<Doc>>, facets: map<Key, set<Facet>>)

  // ---- What the index is derived from ------------------------------------------------------

  function Volumes(publications: map<Place, Publication>, id: Key): map<Place, Key> {
    map at | at in publications && publications[at].series == id :: publications[at].title
  }

  /** `{**values, **overrides}`. */
  function Effective(metadata: map<Key, Metadata>, id: Key): Values {
    if id in metadata then metadata[id].values + metadata[id].overrides else map[]
  }

  /** The metadata fields a facet is taken from. */
  function FieldsOf(kind: Kind): set<Key> {
    match kind
    case Creator => {Key("authors"), Key("artists")}
    case Publisher => {Key("publishers")}
    case Tag => {Key("tags")}
    case Status => {Key("status")}
    case Year => {Key("published_start")}
  }

  predicate Digits(s: string) {
    forall i :: 0 <= i < |s| ==> '0' <= s[i] <= '9'
  }

  /** `text[:4]`, if that is digits. */
  function YearOf(text: string): Option<Key> {
    var year := if |text| <= 4 then text else text[..4];
    if year != [] && Digits(year) then Some(Key(year)) else None
  }

  function FacetOf(kind: Kind, value: Key): Option<Key> {
    if kind == Year then YearOf(value.name) else Some(value)
  }

  function FacetValues(doc: Doc, kind: Kind): set<Key> {
    set field, value |
      field in FieldsOf(kind) && field in doc.metadata && value in doc.metadata[field] && FacetOf(kind, value).Some?
      :: FacetOf(kind, value).value
  }

  function FacetsOf(doc: Doc): set<Facet> {
    set kind, value | kind in {Creator, Publisher, Tag, Status, Year} && value in FacetValues(doc, kind)
      :: Facet(kind, value)
  }

  function Derive(t: Tables, id: Key): Doc
    requires id in t.series
  {
    Doc(t.series[id].name, Effective(t.metadata, id), Volumes(t.publications, id))
  }

  /** The rows `_SEARCH_SOURCE` selects for a series: one if it has volumes, none otherwise. */
  function Source(t: Tables, id: Key): seq<Doc> {
    if id in t.series && Volumes(t.publications, id) != map[] then [Derive(t, id)] else []
  }

  function SourceFacets(t: Tables, id: Key): set<Facet> {
    if Source(t, id) == [] then {} else FacetsOf(Source(t, id)[0])
  }

  function IndexWith(t: Tables, ids: set<Key>): map<Key, seq<Doc>> {
    map id | id in t.index.Keys + ids :: if id in ids then Source(t, id) else t.index[id]
  }

  function FacetsWith(t: Tables, ids: set<Key>): map<Key, set<Facet>> {
    map id | id in t.facets.Keys + ids :: if id in ids then SourceFacets(t, id) else t.facets[id]
  }

  function Reindexed(t: Tables, ids: set<Key>): Tables {
    t.(index := IndexWith(t, ids), facets := FacetsWith(t, ids))
  }

  function Rebuilt(t: Tables): Tables {
    t.(index := map id | id in t.series :: Source(t, id), facets := map id | id in t.series :: SourceFacets(t, id))
  }

  // ---- The transactions --------------------------------------------------------------------

  /** What a publication to be written says about itself; `series` is drawn if there is none yet. */
  datatype Item = Item(at: Place, id: Key, series: Key, title: Key, pages: nat)

  /** `publications.id` is the primary key. */
  ghost predicate UniqueIds(publications: map<Place, Publication>) {
    forall a, b :: a in publications && b in publications && publications[a].id == publications[b].id ==> a == b
  }

  /** Where there is a row with an identifier. */
  function PlacesOf(publications: map<Place, Publication>, id: Key): set<Place> {
    set at | at in publications && publications[at].id == id
  }

  /** `_write_publication`: a row in the same place keeps its identifier. */
  function Written(t: Tables, item: Item, seriesRow: Series): Tables {
    var id := if item.at in t.publications then t.publications[item.at].id else item.id;
    t.(series := if item.series in t.series then t.series else t.series[item.series := seriesRow],
      publications := t.publications[item.at := Publication(id, item.series, item.title)])
  }

  /** The transaction fails when a new place brings an identifier that is taken, or a known place brings pages
      under an identifier that no row has: `pages.publication_id` refers to `publications.id`. */
  predicate Refused(t: Tables, item: Item) {
    if item.at in t.publications then PlacesOf(t.publications, item.id) == {} && item.pages > 0
    else PlacesOf(t.publications, item.id) != {}
  }

  /** The series of the row that has the item's identifier once it is written. */
  function SeriesIndexed(t: Tables, item: Item): set<Key> {
    if item.at !in t.publications || t.publications[item.at].id == item.id then {item.series}
    else set at | at in PlacesOf(t.publications, item.id) :: t.publications[at].series
  }

  /** `upsert_publication`. */
  function Upsert(t: Tables, item: Item, seriesRow: Series): Tables {
    if Refused(t, item) then t else Reindexed(Written(t, item, seriesRow), SeriesIndexed(t, item))
  }

  /** `remove_publications_except`, for one library or for all. */
  function Gone(t: Tables, seen: set<Place>, library: Option<Key>): set<Place> {
    set at | at in t.publications && at !in seen && (library.Some? ==> at.library == library.value)
  }

  function Prune(t: Tables, seen: set<Place>, library: Option<Key>): Tables {
    var gone := Gone(t, seen, library);
    Reindexed(t.(publications := t.publications - gone), set at | at in gone :: t.publications[at].series)
  }

  function RemoveLibrary(t: Tables, library: Key): Tables {
    t.(publications := t.publications - (set at | at in t.publications && at.library == library))
  }

  /** Deleting a library's series takes their metadata and facets along. */
  function ForgetLibrary(t: Tables, library: Key): Tables {
    var ids := set id | id in t.series && t.series[id].library == library;
    t.(series := t.series - ids,
      publications := t.publications - (set at | at in t.publications && at.library == library),
      metadata := t.metadata - ids, index := t.index - ids, facets := t.facets - ids)
  }

  function SaveMetadata(t: Tables, id: Key, values: Values): Tables {
    if id !in t.series then t
    else
      var kept := if id in t.metadata then t.metadata[id].overrides else map[];
      Reindexed(t.(metadata := t.metadata[id := Metadata(values, kept)]), {id})
  }

  function ReplaceOverrides(t: Tables, id: Key, overrides: Values): Tables {
    if id !in t.metadata then t
    else Reindexed(t.(metadata := t.metadata[id := t.metadata[id].(overrides := overrides)]), {id})
  }

  function DeleteMetadata(t: Tables, id: Key): Tables {
    Reindexed(t.(metadata := t.metadata - {id}), {id})
  }

  // ---- Freshness ---------------------------------------------------------------------------

  function RowsOf(t: Tables, id: Key): seq<Doc> {
    GetOr(t.index, id, [])
  }

  function FacetRowsOf(t: Tables, id: Key): set<Facet> {
    GetOr(t.facets, id, {})
  }

  ghost predicate HasVolumes(t: Tables, id: Key) {
    Volumes(t.publications, id) != map[]
  }

  /** A series with volumes has exactly one index row, equal to the one derived now, and just its facets. */
  ghost predicate FreshAt(t: Tables, id: Key) {
    id in t.series && HasVolumes(t, id) ==>
      RowsOf(t, id) == [Derive(t, id)] && FacetRowsOf(t, id) == FacetsOf(Derive(t, id))
  }

  ghost predicate Fresh(t: Tables) {
    forall id :: FreshAt(t, id)
  }

  /** What an index row of this series is written from has not changed. */
  ghost predicate SameSource(t: Tables, u: Tables, id: Key) {
    && (id in u.series ==> id in t.series && t.series[id].name == u.series[id].name)
    && Effective(t.metadata, id) == Effective(u.metadata, id)
    && Volumes(t.publications, id) == Volumes(u.publications, id)
  }

  lemma ReindexFreshens(t: Tables, u: Tables, ids: set<Key>, id: Key)
    requires FreshAt(t, id) && u.index == t.index && u.facets == t.facets
    requires id in ids || SameSource(t, u, id) || !HasVolumes(u, id)
    ensures FreshAt(Reindexed(u, ids), id)
  {
  }

  /** Series that lose volumes or have their metadata edited are indexed anew: freshness lasts. */
  lemma PruneFresh(t: Tables, seen: set<Place>, library: Option<Key>)
    requires Fresh(t)
    ensures Fresh(Prune(t, seen, library))
  {
    var gone := Gone(t, seen, library);
    var u := t.(publications := t.publications - gone);
    var touched := set at | at in gone :: t.publications[at].series;
    forall id
      ensures FreshAt(Prune(t, seen, library), id)
    {
      if id !in touched {
        assert Volumes(u.publications, id) == Volumes(t.publications, id);
      }
      ReindexFreshens(t, u, touched, id);
    }
  }

  lemma MetadataFresh(t: Tables, metadata: map<Key, Metadata>, id: Key)
    requires Fresh(t) && t.metadata - {id} == metadata - {id}
    ensures Fresh(Reindexed(t.(metadata := metadata), {id}))
  {
    var u := t.(metadata := metadata);
    forall other
      ensures FreshAt(Reindexed(u, {id}), other)
    {
      if other != id {
        assert other in t.metadata <==> other in t.metadata - {id};
        assert other in metadata <==> other in metadata - {id};
        assert other in metadata ==> (metadata - {id})[other] == (t.metadata - {id})[other];
      }
      ReindexFreshens(t, u, {id}, other);
    }
  }

  lemma RemoveLibraryFresh(t: Tables, library: Key)
    requires Fresh(t) && Housed(t)
    ensures Fresh(RemoveLibrary(t, library))
  {
    var u := RemoveLibrary(t, library);
    forall id
      ensures FreshAt(u, id)
    {
      if id in t.series && t.series[id].library == library {
        assert Volumes(u.publications, id) == map[];
      } else {
        assert Volumes(u.publications, id) == Volumes(t.publications, id);
      }
      assert FreshAt(t, id);
    }
  }

  /** Every publication's series exists and is of the publication's library. */
  ghost predicate Housed(t: Tables) {
    forall at :: at in t.publications ==> HousedAt(t, at)
  }

  ghost predicate HousedAt(t: Tables, at: Place)
    requires at in t.publications
  {
    t.publications[at].series in t.series && t.series[t.publications[at].series].library == at.library
  }

  lemma ForgottenElsewhere(t: Tables, library: Key, id: Key)
    requires Housed(t)
    ensures var u := ForgetLibrary(t, library);
      id in u.series ==>
        && id in t.series && u.series[id] == t.series[id]
        && Volumes(u.publications, id) == Volumes(t.publications, id)
        && Effective(u.metadata, id) == Effective(t.metadata, id)
        && RowsOf(u, id) == RowsOf(t, id)
        && FacetRowsOf(u, id) == FacetRowsOf(t, id)
  {
  }

  lemma ForgetLibraryFresh(t: Tables, library: Key)
    requires Fresh(t) && Housed(t)
    ensures Fresh(ForgetLibrary(t, library))
  {
    var u := ForgetLibrary(t, library);
    forall id
      ensures FreshAt(u, id)
    {
      if id in u.series {
        ForgottenElsewhere(t, library, id);
      }
      assert FreshAt(t, id);
      hide Volumes, Effective, FacetsOf, ForgetLibrary;
    }
  }

  // ---- Writing a publication ---------------------------------------------------------------

  predicate LeftBy(t: Tables, item: Item, id: Key) {
    item.at in t.publications && t.publications[item.at].series == id
  }

  function OnlyVolume(t: Tables, item: Item, row: Series): Doc {
    Doc(if item.series in t.series then t.series[item.series].name else row.name, Effective(t.metadata, item.series),
      map[item.at := item.title])
  }

  /** A series whose volumes an upsert changes is as good as indexed anew when the title stays; when it loses its
      only volume; or when it had none and a leftover row already says what it gains. */
  ghost predicate Harmless(t: Tables, item: Item, row: Series, id: Key) {
    if id != item.series then Volumes(t.publications, id).Keys == {item.at}
    else if LeftBy(t, item, id) then t.publications[item.at].title == item.title
    else
      && Volumes(t.publications, id) == map[]
      && RowsOf(t, id) == [OnlyVolume(t, item, row)]
      && FacetRowsOf(t, id) == FacetsOf(OnlyVolume(t, item, row))
  }

  lemma UpsertedRows(t: Tables, item: Item, row: Series, id: Key)
    requires !Refused(t, item)
    ensures var after := Upsert(t, item, row);
      && after.publications == Written(t, item, row).publications
      && after.metadata == t.metadata
      && after.series == Written(t, item, row).series
      && (id !in SeriesIndexed(t, item) ==>
           RowsOf(after, id) == RowsOf(t, id) && FacetRowsOf(after, id) == FacetRowsOf(t, id))
  {
    hide Source, SourceFacets, SeriesIndexed;
  }

  lemma UntouchedFresh(t: Tables, item: Item, row: Series, id: Key)
    requires FreshAt(t, id) && !Refused(t, item)
    requires id in SeriesIndexed(t, item) || (id != item.series && !LeftBy(t, item, id))
    ensures FreshAt(Upsert(t, item, row), id)
  {
    var u := Written(t, item, row);
    if id != item.series && !LeftBy(t, item, id) {
      assert Volumes(u.publications, id) == Volumes(t.publications, id);
      assert SameSource(t, u, id);
    }
    hide FreshAt, SameSource;
    ReindexFreshens(t, u, SeriesIndexed(t, item), id);
  }

  /** What a series' volumes are after the write. */
  lemma WrittenVolumes(t: Tables, item: Item, row: Series, id: Key)
    ensures var (before, after) := (Volumes(t.publications, id), Volumes(Written(t, item, row).publications, id));
      && (id == item.series ==> after == before[item.at := item.title])
      && (id != item.series ==> after == before - {item.at})
      && (item.at in before <==> LeftBy(t, item, id))
      && (LeftBy(t, item, id) ==> before[item.at] == t.publications[item.at].title)
  {
  }

  lemma LeftFresh(t: Tables, item: Item, row: Series, id: Key)
    requires FreshAt(t, id) && !Refused(t, item) && id !in SeriesIndexed(t, item)
    requires id != item.series && LeftBy(t, item, id) && id in t.series
    ensures FreshAt(Upsert(t, item, row), id) <==> Harmless(t, item, row, id)
  {
    UpsertedRows(t, item, row, id);
    WrittenVolumes(t, item, row, id);
    hide Volumes, Effective, FacetsOf, Upsert, RowsOf, FacetRowsOf, SeriesIndexed, LeftBy;
    var (before, after) := (Volumes(t.publications, id), Upsert(t, item, row));
    assert Derive(t, id).volumes == before && Derive(after, id).volumes == before - {item.at};
    if before - {item.at} == map[] {
      assert forall at :: at in before && at != item.at ==> at in before - {item.at};
      assert before.Keys == {item.at};
    }
  }

  lemma KeptFresh(t: Tables, item: Item, row: Series)
    requires FreshAt(t, item.series) && !Refused(t, item) && item.series !in SeriesIndexed(t, item)
    requires LeftBy(t, item, item.series) && item.series in t.series
    ensures FreshAt(Upsert(t, item, row), item.series) <==> Harmless(t, item, row, item.series)
  {
    var id := item.series;
    UpsertedRows(t, item, row, id);
    WrittenVolumes(t, item, row, id);
    hide Volumes, Effective, FacetsOf, Upsert, RowsOf, FacetRowsOf, SeriesIndexed;
    var (before, after) := (Volumes(t.publications, id), Upsert(t, item, row));
    assert Derive(t, id).volumes == before && Derive(after, id).volumes == before[item.at := item.title];
    assert before[item.at := item.title][item.at] == item.title;
    if before[item.at] == item.title {
      assert before[item.at := item.title] == before && Derive(after, id) == Derive(t, id);
    }
  }

  lemma JoinedFresh(t: Tables, item: Item, row: Series)
    requires FreshAt(t, item.series) && !Refused(t, item) && item.series !in SeriesIndexed(t, item)
    requires !LeftBy(t, item, item.series) && (HasVolumes(t, item.series) ==> item.series in t.series)
    ensures FreshAt(Upsert(t, item, row), item.series) <==> Harmless(t, item, row, item.series)
  {
    var id := item.series;
    UpsertedRows(t, item, row, id);
    WrittenVolumes(t, item, row, id);
    hide Volumes, Effective, FacetsOf, Upsert, RowsOf, FacetRowsOf, SeriesIndexed, LeftBy;
    var (before, after) := (Volumes(t.publications, id), Upsert(t, item, row));
    assert item.at in before[item.at := item.title];
    assert Derive(after, id).volumes == before[item.at := item.title];
    if before != map[] {
      assert Derive(t, id).volumes == before;
    } else {
      assert before[item.at := item.title] == map[item.at := item.title];
      assert Derive(after, id) == OnlyVolume(t, item, row);
    }
  }

  lemma VolumesHoused(t: Tables, id: Key)
    requires Housed(t) && HasVolumes(t, id)
    ensures id in t.series
  {
    var at :| at in Volumes(t.publications, id);
    assert HousedAt(t, at);
  }

  lemma TouchedFresh(t: Tables, item: Item, row: Series, id: Key)
    requires FreshAt(t, id) && Housed(t) && !Refused(t, item) && id !in SeriesIndexed(t, item)
    requires id == item.series || LeftBy(t, item, id)
    ensures FreshAt(Upsert(t, item, row), id) <==> Harmless(t, item, row, id)
  {
    if LeftBy(t, item, id) {
      assert HousedAt(t, item.at);
    }
    if HasVolumes(t, id) {
      VolumesHoused(t, id);
    }
    hide FreshAt, Housed, Harmless, SeriesIndexed, Upsert, Volumes;
    if id != item.series {
      LeftFresh(t, item, row, id);
    } else if LeftBy(t, item, id) {
      KeptFresh(t, item, row);
    } else {
      JoinedFresh(t, item, row);
    }
  }

  /** Every upsert, whoever calls it with whatever identifier: the index stays fresh if and only if the
      transaction fails, or each series that gains, loses or renames a volume is the one indexed anew or comes
      off unharmed. */
  lemma UpsertFreshExactly(t: Tables, item: Item, row: Series)
    requires Fresh(t) && Housed(t)
    ensures Fresh(Upsert(t, item, row)) <==>
      Refused(t, item)
      || forall id :: id == item.series || LeftBy(t, item, id) ==>
           id in SeriesIndexed(t, item) || Harmless(t, item, row, id)
  {
    if !Refused(t, item) {
      forall id
        ensures id in SeriesIndexed(t, item) || (id != item.series && !LeftBy(t, item, id)) ==>
          FreshAt(Upsert(t, item, row), id)
        ensures id !in SeriesIndexed(t, item) && (id == item.series || LeftBy(t, item, id)) ==>
          (FreshAt(Upsert(t, item, row), id) <==> Harmless(t, item, row, id))
      {
        assert FreshAt(t, id);
        hide FreshAt, Upsert, Harmless, LeftBy, SeriesIndexed, Housed, Refused;
        if id in SeriesIndexed(t, item) || (id != item.series && !LeftBy(t, item, id)) {
          UntouchedFresh(t, item, row, id);
        } else {
          TouchedFresh(t, item, row, id);
        }
      }
      hide FreshAt, Upsert, Harmless, LeftBy, SeriesIndexed, Housed, Refused;
    }
  }

  /** A place that brings its own identifier, or is new, is safe unless it leaves a series that keeps volumes. */
  lemma OwnIdFresh(t: Tables, item: Item, row: Series)
    requires Fresh(t) && Housed(t) && (item.at in t.publications ==> t.publications[item.at].id == item.id)
    ensures Fresh(Upsert(t, item, row)) <==>
      (item.at in t.publications && t.publications[item.at].series != item.series ==>
        Volumes(t.publications, t.publications[item.at].series).Keys == {item.at})
  {
    UpsertFreshExactly(t, item, row);
    assert SeriesIndexed(t, item) == {item.series};
    if item.at in t.publications {
      assert item.at in PlacesOf(t.publications, item.id) && LeftBy(t, item, t.publications[item.at].series);
    }
    hide Fresh, Volumes, Upsert, SeriesIndexed;
  }

  /** The failing family is not empty: two volumes of one series, and the first written again under another. */
  lemma MovedVolumeGoesStale(library: Key, folder: Key, category: Key, a: Key, b: Key, x: Key, y: Key)
    requires a != b && x != y
    ensures var (at, other) := (Place(library, folder, category, a, x), Place(library, folder, category, a, y));
      var volumes := map[at := Publication(x, a, x), other := Publication(y, a, y)];
      var t := Rebuilt(Tables(map[a := Series(library, category, a)], volumes, map[], map[], map[]));
      Fresh(t) && Housed(t) && !Fresh(Upsert(t, Item(at, x, b, x, 1), Series(library, category, b)))
  {
    var (at, other) := (Place(library, folder, category, a, x), Place(library, folder, category, a, y));
    var volumes := map[at := Publication(x, a, x), other := Publication(y, a, y)];
    var t := Rebuilt(Tables(map[a := Series(library, category, a)], volumes, map[], map[], map[]));
    assert other in Volumes(t.publications, a);
    RebuiltFresh(Tables(map[a := Series(library, category, a)], volumes, map[], map[], map[]));
    OwnIdFresh(t, Item(at, x, b, x, 1), Series(library, category, b));
  }

  /** A rebuilt index is fresh. */
  lemma RebuiltFresh(t: Tables)
    ensures Fresh(Rebuilt(t))
  {
    forall id
      ensures FreshAt(Rebuilt(t), id)
    {
      hide Volumes, Effective, FacetsOf;
      if id in t.series {
        RebuiltRows(t, id);
      }
    }
  }

  // ---- Whole runs --------------------------------------------------------------------------

  datatype Step =
    | Index(at: Place, id: Key, title: Key, pages: nat, drawn: Key)
    | PruneAll(seen: set<Place>, within: Option<Key>)
    | Remove(library: Key)
    | ForgetMount(libraries: seq<Key>)
    | Save(id: Key, values: Values)
    | Edit(id: Key, overrides: Values)
    | Delete(id: Key)

  function ForgetAll(t: Tables, libraries: seq<Key>): Tables
    decreases |libraries|
  {
    if libraries == [] then t else ForgetAll(ForgetLibrary(t, libraries[0]), libraries[1..])
  }

  predicate FiledAs(s: Series, at: Place) {
    s == Series(at.library, at.category, at.series)
  }

  /** `_ensure_catalog_hierarchy`: the series the path names, or a new one. */
  ghost function SeriesFor(t: Tables, at: Place, drawn: Key): Key {
    if exists id :: id in t.series && FiledAs(t.series[id], at) then
      var id :| id in t.series && FiledAs(t.series[id], at);
      id
    else drawn
  }

  /** The scanner's upsert: the path says which series, a known path keeps its identifier, and new
      identifiers are new. */
  ghost function IndexPath(t: Tables, at: Place, id: Key, title: Key, pages: nat, drawn: Key): Tables {
    if drawn in t.series then t
    else
      var known := if at in t.publications then t.publications[at].id else id;
      Upsert(t, Item(at, known, SeriesFor(t, at, drawn), title, pages), Series(at.library, at.category, at.series))
  }

  ghost function Do(t: Tables, step: Step): Tables {
    match step
    case Index(at, id, title, pages, drawn) => IndexPath(t, at, id, title, pages, drawn)
    case PruneAll(seen, within) => Prune(t, seen, within)
    case Remove(library) => RemoveLibrary(t, library)
    case ForgetMount(libraries) => ForgetAll(t, libraries)
    case Save(id, values) => SaveMetadata(t, id, values)
    case Edit(id, overrides) => ReplaceOverrides(t, id, overrides)
    case Delete(id) => DeleteMetadata(t, id)
  }

  ghost function Run(t: Tables, steps: seq<Step>): Tables
    decreases |steps|
  {
    if steps == [] then t else Do(Run(t, steps[..|steps| - 1]), steps[|steps| - 1])
  }

  /** Every publication is in the series its path names, and no two series have the same name. */
  ghost predicate FiledAt(t: Tables, at: Place)
    requires at in t.publications
  {
    t.publications[at].series in t.series && FiledAs(t.series[t.publications[at].series], at)
  }

  ghost predicate Filed(t: Tables) {
    && (forall at :: at in t.publications ==> FiledAt(t, at))
    && (forall a, b :: a in t.series && b in t.series && t.series[a] == t.series[b] ==> a == b)
  }

  ghost predicate Inv(t: Tables) {
    Fresh(t) && Filed(t)
  }

  lemma FiledHoused(t: Tables)
    requires Filed(t)
    ensures Housed(t)
  {
  }

  lemma SeriesForFound(t: Tables, at: Place, drawn: Key)
    requires Filed(t) && drawn !in t.series
    ensures var id := SeriesFor(t, at, drawn);
      && (id in t.series ==> FiledAs(t.series[id], at))
      && (id !in t.series ==> forall other :: other in t.series ==> !FiledAs(t.series[other], at))
      && (at in t.publications ==> t.publications[at].series == id)
  {
  }

  lemma WrittenFiled(t: Tables, item: Item, row: Series)
    requires Filed(t) && FiledAs(row, item.at)
    requires item.series in t.series ==> FiledAs(t.series[item.series], item.at)
    requires item.series !in t.series ==> forall other :: other in t.series ==> !FiledAs(t.series[other], item.at)
    ensures Filed(Written(t, item, row))
  {
  }

  lemma IndexPathKeeps(t: Tables, at: Place, id: Key, title: Key, pages: nat, drawn: Key)
    requires Inv(t)
    ensures Inv(IndexPath(t, at, id, title, pages, drawn))
  {
    if drawn !in t.series {
      var known := if at in t.publications then t.publications[at].id else id;
      var item := Item(at, known, SeriesFor(t, at, drawn), title, pages);
      var row := Series(at.library, at.category, at.series);
      SeriesForFound(t, at, drawn);
      FiledHoused(t);
      WrittenFiled(t, item, row);
      OwnIdFresh(t, item, row);
      SameFiling(Written(t, item, row), Upsert(t, item, row));
      SameFiling(t, t);
      hide Fresh, Filed, Housed, Written;
    }
  }

  /** Filing depends on the series and publications alone. */
  lemma SameFiling(t: Tables, u: Tables)
    ensures Filed(t) && u.series == t.series && u.publications == t.publications ==> Filed(u)
  {
  }

  lemma FewerFiled(t: Tables, u: Tables, gone: set<Place>, library: set<Key>)
    requires Filed(t) && u.publications == t.publications - gone && u.series == t.series - library
    requires forall at :: at in t.publications && t.publications[at].series in library ==> at in gone
    ensures Filed(u)
  {
  }

  lemma ForgetLibraryKeeps(t: Tables, library: Key)
    requires Inv(t)
    ensures Inv(ForgetLibrary(t, library))
  {
    FiledHoused(t);
    ForgetLibraryFresh(t, library);
    var ids := set id | id in t.series && t.series[id].library == library;
    var gone := set at | at in t.publications && at.library == library;
    forall at | at in t.publications && t.publications[at].series in ids
      ensures at in gone
    {
      assert FiledAt(t, at);
    }
    hide Fresh;
    FewerFiled(t, ForgetLibrary(t, library), gone, ids);
  }

  lemma {:induction false} ForgetAllKeeps(t: Tables, libraries: seq<Key>)
    requires Inv(t)
    ensures Inv(ForgetAll(t, libraries))
    decreases |libraries|
  {
    if libraries != [] {
      ForgetLibraryKeeps(t, libraries[0]);
      ForgetAllKeeps(ForgetLibrary(t, libraries[0]), libraries[1..]);
    }
  }

  lemma PruneKeeps(t: Tables, seen: set<Place>, library: Option<Key>)
    requires Inv(t)
    ensures Inv(Prune(t, seen, library))
  {
    PruneFresh(t, seen, library);
    hide Fresh;
    FewerFiled(t, Prune(t, seen, library), Gone(t, seen, library), {});
  }

  lemma RemoveLibraryKeeps(t: Tables, library: Key)
    requires Inv(t)
    ensures Inv(RemoveLibrary(t, library))
  {
    FiledHoused(t);
    RemoveLibraryFresh(t, library);
    hide Fresh;
    FewerFiled(t, RemoveLibrary(t, library), set at | at in t.publications && at.library == library, {});
  }

  lemma MetadataKeeps(t: Tables, id: Key, metadata: map<Key, Metadata>)
    requires Inv(t) && t.metadata - {id} == metadata - {id}
    ensures Inv(Reindexed(t.(metadata := metadata), {id}))
  {
    MetadataFresh(t, metadata, id);
    SameFiling(t, Reindexed(t.(metadata := metadata), {id}));
  }

  lemma DoKeeps(t: Tables, step: Step)
    requires Inv(t)
    ensures Inv(Do(t, step))
  {
    hide Inv, Prune, RemoveLibrary, Reindexed, IndexPath;
    match step
    case Index(at, id, title, pages, drawn) => IndexPathKeeps(t, at, id, title, pages, drawn);
    case PruneAll(seen, within) => PruneKeeps(t, seen, within);
    case Remove(library) => RemoveLibraryKeeps(t, library);
    case ForgetMount(libraries) => ForgetAllKeeps(t, libraries);
    case Save(id, values) =>
      var kept := if id in t.metadata then t.metadata[id].overrides else map[];
      if id in t.series {
        MetadataKeeps(t, id, t.metadata[id := Metadata(values, kept)]);
      }
    case Edit(id, overrides) =>
      if id in t.metadata {
        MetadataKeeps(t, id, t.metadata[id := t.metadata[id].(overrides := overrides)]);
      }
    case Delete(id) => MetadataKeeps(t, id, t.metadata - {id});
  }

  lemma {:induction false} RunKeeps(t: Tables, steps: seq<Step>)
    requires Inv(t)
    ensures Inv(Run(t, steps))
    decreases |steps|
  {
    if steps != [] {
      RunKeeps(t, steps[..|steps| - 1]);
      DoKeeps(Run(t, steps[..|steps| - 1]), steps[|steps| - 1]);
    }
  }

  // ---- Searching ---------------------------------------------------------------------------

  /** A facet family and the chosen values, one of which the series must have. */
  datatype Choice = Choice(kind: Kind, values: set<Key>)

  /** `matches` is the full-text condition, if there are terms; `admits` everything asked of other tables:
      reachability, library, category, reading state and the reader's grants. */
  datatype Query = Query(matches: Option<Doc -> bool>, choices: seq<Choice>, admits: Key -> bool)

  function Matching(rows: seq<Doc>, matches: Doc -> bool): nat {
    if rows == [] then 0 else Matching(rows[1..], matches) + (if matches(rows[0]) then 1 else 0)
  }

  ghost predicate Chosen(facets: set<Facet>, choices: seq<Choice>) {
    forall i :: 0 <= i < |choices| ==> HasOne(facets, choices[i])
  }

  ghost predicate HasOne(facets: set<Facet>, choice: Choice) {
    exists v :: v in choice.values && Facet(choice.kind, v) in facets
  }

  /** How often the query returns a series. */
  ghost function Hits(t: Tables, q: Query, id: Key): nat {
    if !(id in t.series && HasVolumes(t, id) && q.admits(id) && Chosen(FacetRowsOf(t, id), q.choices)) then 0
    else if q.matches.None? then 1
    else Matching(RowsOf(t, id), q.matches.value)
  }

  lemma RebuiltRows(t: Tables, id: Key)
    requires id in t.series
    ensures RowsOf(Rebuilt(t), id) == Source(t, id) && FacetRowsOf(Rebuilt(t), id) == SourceFacets(t, id)
  {
  }

  /** Whatever indexed, removed, forgot or edited what, a search over the index as it stands, stale rows and
      all, returns just what it would over an index rebuilt from scratch. */
  lemma SearchAsIfRebuilt(t: Tables, steps: seq<Step>, q: Query, id: Key)
    requires Inv(t)
    ensures Hits(Run(t, steps), q, id) == Hits(Rebuilt(Run(t, steps)), q, id) <= 1
  {
    RunKeeps(t, steps);
    var now := Run(t, steps);
    assert FreshAt(now, id);
    if id in now.series {
      RebuiltRows(now, id);
      if HasVolumes(now, id) {
        assert Source(now, id) == [Derive(now, id)];
        assert RowsOf(now, id) == Source(now, id) && FacetRowsOf(now, id) == SourceFacets(now, id);
        if q.matches.Some? {
          assert Matching([Derive(now, id)], q.matches.value) <= 1;
        }
      }
    }
    hide Run, Rebuilt, RowsOf, FacetRowsOf, Derive, FacetsOf, Chosen;
  }
}
