/** The catalog and search tables as the repository updates them (`database.py`). */
module SearchTables {
  import opened Common
  import opened SearchIndex

  /** The rows a series gets depend on the catalog alone, not on the index. */
  lemma SourceIgnoresIndex(t: Tables, u: Tables, id: Key)
    requires u.series == t.series && u.publications == t.publications && u.metadata == t.metadata
    ensures Source(u, id) == Source(t, id) && SourceFacets(u, id) == SourceFacets(t, id)
  {
  }

  lemma OneMoreRow(t: Tables, u: Tables, done: set<Key>, id: Key)
    requires u == Reindexed(t, done)
    ensures IndexWith(u, {id}) == IndexWith(t, done + {id})
  {
    SourceIgnoresIndex(t, u, id);
    hide Source, SourceFacets, FacetsWith;
  }

  lemma OneMoreFacets(t: Tables, u: Tables, done: set<Key>, id: Key)
    requires u == Reindexed(t, done)
    ensures FacetsWith(u, {id}) == FacetsWith(t, done + {id})
  {
    SourceIgnoresIndex(t, u, id);
    hide Source, SourceFacets, IndexWith;
    var (a, b) := (FacetsWith(u, {id}), FacetsWith(t, done + {id}));
    assert a.Keys == b.Keys;
    forall k | k in a.Keys
      ensures a[k] == b[k]
    {
      if k != id && k in done {
        assert u.facets[k] == SourceFacets(t, k);
      }
    }
  }

  lemma ReindexOneMore(t: Tables, done: set<Key>, id: Key)
    ensures Reindexed(Reindexed(t, done), {id}) == Reindexed(t, done + {id})
  {
    OneMoreRow(t, Reindexed(t, done), done, id);
    OneMoreFacets(t, Reindexed(t, done), done, id);
    hide IndexWith, FacetsWith;
  }

  /** A known place is written if its pages have some row to refer to, or there are none; a new one if its identifier is
      new. */
  ghost predicate Accepted(publications: map<Place, Publication>, item: Item) {
    if item.at in publications
    then item.pages == 0 || exists at :: at in publications && publications[at].id == item.id
    else forall at :: at in publications ==> publications[at].id != item.id
  }

  lemma AcceptedExactly(t: Tables, item: Item)
    ensures Accepted(t.publications, item) <==> !Refused(t, item)
  {
    assert forall at :: at in t.publications && t.publications[at].id == item.id ==>
      at in PlacesOf(t.publications, item.id);
  }

  /** The series in `ids` but not in `left` have been indexed anew. */
  ghost predicate AllBut(t: Tables, now: Tables, ids: set<Key>, left: set<Key>) {
    now == Reindexed(t, ids - left)
  }

  lemma NoneDone(t: Tables, ids: set<Key>)
    ensures AllBut(t, t, ids, ids)
  {
  }

  lemma OneDone(t: Tables, now: Tables, ids: set<Key>, left: set<Key>, id: Key)
    requires left <= ids && id in left && AllBut(t, now, ids, left)
    ensures AllBut(t, Reindexed(now, {id}), ids, left - {id})
  {
    ReindexOneMore(t, ids - left, id);
    assert ids - (left - {id}) == (ids - left) + {id};
  }

  lemma AllDone(t: Tables, now: Tables, ids: set<Key>)
    ensures AllBut(t, now, ids, {}) ==> now == Reindexed(t, ids)
  {
    hide Source, SourceFacets;
  }

  lemma ReplacedRow(t: Tables, id: Key)
    ensures (t.index - {id})[id := Source(t, id)] == IndexWith(t, {id})
    ensures (t.facets - {id})[id := SourceFacets(t, id)] == FacetsWith(t, {id})
  {
    hide Source, SourceFacets;
  }

  lemma KeepsIds(t: Tables, item: Item, row: Series)
    requires UniqueIds(t.publications) && !Refused(t, item)
    ensures UniqueIds(Written(t, item, row).publications)
  {
    assert forall at :: at in t.publications && t.publications[at].id == item.id ==>
      at in PlacesOf(t.publications, item.id);
  }

  /** The one row with the item's identifier, if any, is of the series that is to be indexed anew. */
  lemma IndexesOne(t: Tables, item: Item, row: Series)
    requires UniqueIds(t.publications) && !Refused(t, item)
    ensures var u := Written(t, item, row);
      && (forall at :: at in PlacesOf(u.publications, item.id) ==>
        SeriesIndexed(t, item) == {u.publications[at].series})
      && (PlacesOf(u.publications, item.id) == {} ==> SeriesIndexed(t, item) == {} && Reindexed(u, {}) == u)
  {
    var u := Written(t, item, row);
    KeepsIds(t, item, row);
    forall at | at in PlacesOf(u.publications, item.id)
      ensures SeriesIndexed(t, item) == {u.publications[at].series}
    {
      assert item.at in u.publications && (u.publications[item.at].id == item.id ==> at == item.at);
      if u.publications[item.at].id != item.id {
        assert at in PlacesOf(t.publications, item.id);
        assert forall b :: b in PlacesOf(t.publications, item.id) ==> b == at;
      }
    }
    if PlacesOf(u.publications, item.id) == {} {
      assert forall b :: b in PlacesOf(t.publications, item.id) ==> b in PlacesOf(u.publications, item.id);
      assert item.at !in PlacesOf(u.publications, item.id);
      assert SeriesIndexed(t, item) == {};
    }
    hide Source, SourceFacets;
    assert IndexWith(u, {}) == u.index && FacetsWith(u, {}) == u.facets;
  }

  class SQLiteRepository {
    var series: map<Key, Series>
    var publications: map<Place, Publication>
    var metadata: map<Key, Metadata>
    var index: map<Key, seq<Doc>>
    var facets: map<Key, set<Facet>>

    constructor ()
      ensures View() == Tables(map[], map[], map[], map[], map[])
    {
      series, publications, metadata, index, facets := map[], map[], map[], map[], map[];
    }

    function View(): Tables
      reads this
    {
      Tables(series, publications, metadata, index, facets)
    }

    method ReindexSeries(id: Key)
      modifies this`index, this`facets
      ensures View() == Reindexed(old(View()), {id})
    {
      var rows, found := Source(View(), id), SourceFacets(View(), id);
      ReplacedRow(View(), id);
      hide Source, SourceFacets, IndexWith, FacetsWith;
      index := index - {id};
      facets := facets - {id};
      index := index[id := rows];
      facets := facets[id := found];
    }

    /** Written and indexed, or refused with everything as it was. */
    method UpsertPublication(item: Item, row: Series) returns (written: bool)
      requires UniqueIds(publications)
      modifies this
      ensures UniqueIds(publications)
      ensures written <==> Accepted(old(publications), item)
      ensures View() == Upsert(old(View()), item, row)
    {
      ghost var t := View();
      AcceptedExactly(t, item);
      hide Accepted;
      if Refused(View(), item) {
        return false;
      }
      KeepsIds(t, item, row);
      if item.series !in series {
        series := series[item.series := row];
      }
      var id := if item.at in publications then publications[item.at].id else item.id;
      publications := publications[item.at := Publication(id, item.series, item.title)];
      assert View() == Written(t, item, row);
      IndexesOne(t, item, row);
      var rows := PlacesOf(publications, item.id);
      hide Written, PlacesOf, SeriesIndexed, Refused, UniqueIds, Reindexed;
      if rows != {} {
        ghost var some := Pick(rows);
        var at :| at in rows;
        ReindexSeries(publications[at].series);
      }
      return true;
    }

    method RemovePublicationsExcept(seen: set<Place>, library: Option<Key>) returns (removed: nat)
      modifies this`publications, this`index, this`facets
      ensures View() == Prune(old(View()), seen, library)
      ensures removed == |Gone(old(View()), seen, library)|
    {
      var gone := Gone(View(), seen, library);
      var touched := set at | at in gone :: publications[at].series;
      publications := publications - gone;
      ReindexTouched(touched);
      removed := |gone|;
    }

    method ReindexTouched(ids: set<Key>)
      modifies this`index, this`facets
      ensures View() == Reindexed(old(View()), ids)
    {
      var touched := ids;
      ghost var t := View();
      NoneDone(t, ids);
      hide AllBut, Reindexed;
      while touched != {}
        invariant touched <= ids && AllBut(t, View(), ids, touched)
        decreases |touched|
      {
        ghost var some := Pick(touched);
        var id :| id in touched;
        OneDone(t, View(), ids, touched, id);
        ReindexSeries(id);
        touched := touched - {id};
      }
      AllDone(t, View(), ids);
    }

    method RemoveLibrary(library: Key)
      modifies this`publications
      ensures View() == SearchIndex.RemoveLibrary(old(View()), library)
    {
      publications := publications - (set at | at in publications && at.library == library);
    }

    method ForgetDataMount(libraries: seq<Key>)
      modifies this
      ensures View() == ForgetAll(old(View()), libraries)
    {
      for n := 0 to |libraries|
        invariant ForgetAll(View(), libraries[n..]) == ForgetAll(old(View()), libraries)
      {
        assert libraries[n..][1..] == libraries[n + 1..];
        ForgetLibraryRows(libraries[n]);
      }
    }

    method ForgetLibraryRows(library: Key)
      modifies this
      ensures View() == ForgetLibrary(old(View()), library)
    {
      var ids := set id | id in series && series[id].library == library;
      index := index - ids;
      publications := publications - (set at | at in publications && at.library == library);
      series, metadata, facets := series - ids, metadata - ids, facets - ids;
    }

    method SaveSeriesMetadata(id: Key, values: Values) returns (found: bool)
      modifies this`metadata, this`index, this`facets
      ensures found == (id in series)
      ensures View() == SaveMetadata(old(View()), id, values)
    {
      if id !in series {
        return false;
      }
      metadata := metadata[id := Metadata(values, if id in metadata then metadata[id].overrides else map[])];
      ReindexSeries(id);
      return true;
    }

    method ReplaceMetadataOverrides(id: Key, overrides: Values) returns (found: bool)
      modifies this`metadata, this`index, this`facets
      ensures found == (id in old(metadata))
      ensures View() == ReplaceOverrides(old(View()), id, overrides)
    {
      if id !in metadata {
        return false;
      }
      metadata := metadata[id := metadata[id].(overrides := overrides)];
      ReindexSeries(id);
      return true;
    }

    method DeleteSeriesMetadata(id: Key)
      modifies this`metadata, this`index, this`facets
      ensures View() == DeleteMetadata(old(View()), id)
    {
      metadata := metadata - {id};
      ReindexSeries(id);
    }
  }
}
