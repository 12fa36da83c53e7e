/** What a search returns, said of the catalog itself: which series, by which titles and values. */
module SearchMeaning {
  import opened Common
  import opened SearchIndex

  /** A value of the series' metadata as shown: the administrator's, where there is one of the kind, else the
      provider's. */
  ghost predicate Shows(t: Tables, id: Key, kind: Key, shown: seq<Key>) {
    && id in t.metadata
    && if kind in t.metadata[id].overrides then shown == t.metadata[id].overrides[kind]
       else kind in t.metadata[id].values && shown == t.metadata[id].values[kind]
  }

  /** The series' name, all its shown values and all its volumes' titles, and nothing else. */
  ghost predicate Describes(t: Tables, id: Key, doc: Doc) {
    && id in t.series && doc.name == t.series[id].name
    && (forall kind :: kind in doc.metadata ==> Shows(t, id, kind, doc.metadata[kind]))
    && (forall kind, shown :: Shows(t, id, kind, shown) ==> kind in doc.metadata && doc.metadata[kind] == shown)
    && (forall at :: at in doc.volumes <==> at in t.publications && t.publications[at].series == id)
    && (forall at :: at in doc.volumes ==> doc.volumes[at] == t.publications[at].title)
  }

  /** What a search asks of the catalog, with no index between. */
  ghost predicate Answers(t: Tables, q: Query, id: Key) {
    && (exists at :: at in t.publications && t.publications[at].series == id)
    && q.admits(id)
    && (forall i :: 0 <= i < |q.choices| ==> Has(t, id, q.choices[i]))
    && exists doc :: Describes(t, id, doc) && (q.matches.Some? ==> q.matches.value(doc))
  }

  /** A value of a field makes the series one of a creator, a publisher, a tag, a status or a year: authors and artists
      both create, and the year is the first four characters of the start of publication, if they are digits. */
  predicate Makes(kind: Kind, field: Key, value: Key, v: Key) {
    match kind
    case Creator => (field.name == "authors" || field.name == "artists") && v == value
    case Publisher => field.name == "publishers" && v == value
    case Tag => field.name == "tags" && v == value
    case Status => field.name == "status" && v == value
    case Year =>
      && field.name == "published_start"
      && v.name != []
      && v.name == (if |value.name| > 4 then value.name[..4] else value.name)
      && forall i :: 0 <= i < |v.name| ==> v.name[i] in "0123456789"
  }

  ghost predicate Has(t: Tables, id: Key, choice: Choice) {
    exists field, shown, value, v ::
      && Shows(t, id, field, shown)
      && value in shown
      && Makes(choice.kind, field, value, v)
      && v in choice.values
  }

  lemma DigitIs(c: char)
    ensures '0' <= c <= '9' <==> c in "0123456789"
  {
    if '0' <= c <= '9' {
      assert c == "0123456789"[c as int - 48];
    }
  }

  lemma YearIs(text: string, v: Key)
    ensures YearOf(text) == Some(v) <==>
      && v.name != []
      && v.name == (if |text| > 4 then text[..4] else text)
      && forall i :: 0 <= i < |v.name| ==> v.name[i] in "0123456789"
  {
    var year := if |text| <= 4 then text else text[..4];
    forall i | 0 <= i < |year| ensures '0' <= year[i] <= '9' <==> year[i] in "0123456789" {
      DigitIs(year[i]);
    }
    assert Digits(year) <==> forall i :: 0 <= i < |year| ==> year[i] in "0123456789";
    hide Digits;
    assert v == Key(v.name);
  }

  lemma FacetMakes(kind: Kind, field: Key, value: Key, v: Key)
    ensures Makes(kind, field, value, v) <==> field in FieldsOf(kind) && FacetOf(kind, value) == Some(v)
  {
    YearIs(value.name, v);
    hide YearOf;
    match kind
    case Creator => assert field in FieldsOf(kind) <==> field.name == "authors" || field.name == "artists";
    case Publisher => assert field in FieldsOf(kind) <==> field.name == "publishers";
    case Tag => assert field in FieldsOf(kind) <==> field.name == "tags";
    case Status => assert field in FieldsOf(kind) <==> field.name == "status";
    case Year => assert field in FieldsOf(kind) <==> field.name == "published_start";
  }

  lemma EffectiveShows(t: Tables, id: Key, kind: Key, shown: seq<Key>)
    ensures Shows(t, id, kind, shown) <==>
      kind in Effective(t.metadata, id) && Effective(t.metadata, id)[kind] == shown
  {
  }

  lemma DeriveDescribes(t: Tables, id: Key, doc: Doc)
    ensures Describes(t, id, doc) <==> id in t.series && doc == Derive(t, id)
  {
    forall kind, shown
      ensures Shows(t, id, kind, shown) <==>
        kind in Effective(t.metadata, id) && Effective(t.metadata, id)[kind] == shown
    {
      EffectiveShows(t, id, kind, shown);
    }
    hide Shows, Effective;
    if Describes(t, id, doc) {
      var derived := Derive(t, id);
      assert doc.volumes == derived.volumes;
      forall kind ensures kind in doc.metadata <==> kind in derived.metadata {
        assert kind in derived.metadata ==> Shows(t, id, kind, derived.metadata[kind]);
      }
      assert doc.metadata == derived.metadata;
    }
  }

  lemma FacetIn(doc: Doc, kind: Kind, v: Key)
    ensures Facet(kind, v) in FacetsOf(doc) <==> exists field, value ::
      field in doc.metadata && value in doc.metadata[field] && Makes(kind, field, value, v)
  {
    assert kind in {Creator, Publisher, Tag, Status, Year};
    assert Facet(kind, v) in FacetsOf(doc) <==> v in FacetValues(doc, kind);
    forall field, value
      ensures Makes(kind, field, value, v) <==> field in FieldsOf(kind) && FacetOf(kind, value) == Some(v)
    {
      FacetMakes(kind, field, value, v);
    }
    hide Makes, FieldsOf, FacetOf;
  }

  lemma FacetsHave(t: Tables, id: Key, choice: Choice)
    requires id in t.series
    ensures Has(t, id, choice) <==> HasOne(FacetsOf(Derive(t, id)), choice)
  {
    var doc := Derive(t, id);
    forall field, shown
      ensures Shows(t, id, field, shown) <==> field in doc.metadata && doc.metadata[field] == shown
    {
      EffectiveShows(t, id, field, shown);
    }
    forall v
      ensures Facet(choice.kind, v) in FacetsOf(doc) <==> exists field, value ::
        field in doc.metadata && value in doc.metadata[field] && Makes(choice.kind, field, value, v)
    {
      FacetIn(doc, choice.kind, v);
    }
    hide Shows, Effective, FacetsOf, Makes, Derive;
    if HasOne(FacetsOf(doc), choice) {
      var v :| v in choice.values && Facet(choice.kind, v) in FacetsOf(doc);
      var field, value :| field in doc.metadata && value in doc.metadata[field] && Makes(choice.kind, field, value, v);
      assert Shows(t, id, field, doc.metadata[field]);
    }
  }

  lemma ChosenHave(t: Tables, id: Key, choices: seq<Choice>)
    requires id in t.series
    ensures Chosen(FacetsOf(Derive(t, id)), choices) <==> forall i :: 0 <= i < |choices| ==> Has(t, id, choices[i])
  {
    var facets := FacetsOf(Derive(t, id));
    hide FacetsOf, Derive, Has, HasOne;
    forall i | 0 <= i < |choices|
      ensures Has(t, id, choices[i]) <==> HasOne(facets, choices[i])
    {
      FacetsHave(t, id, choices[i]);
    }
  }

  lemma FreshAnswers(t: Tables, q: Query, id: Key)
    requires FreshAt(t, id) && (forall at :: at in t.publications ==> HousedAt(t, at))
    ensures Hits(t, q, id) == if Answers(t, q, id) then 1 else 0
  {
    if HasVolumes(t, id) {
      var at :| at in Volumes(t.publications, id);
      assert HousedAt(t, at);
      var doc := Derive(t, id);
      DeriveDescribes(t, id, doc);
      forall other | Describes(t, id, other) ensures other == doc {
        DeriveDescribes(t, id, other);
      }
      ChosenHave(t, id, q.choices);
      hide Describes, Has, Derive, FacetsOf, Chosen;
      assert RowsOf(t, id) == [doc] && FacetRowsOf(t, id) == FacetsOf(doc);
      assert q.matches.Some? ==> Matching([doc], q.matches.value) == if q.matches.value(doc) then 1 else 0;
    } else {
      assert forall at :: at in t.publications ==> t.publications[at].series != id by {
        assert forall at :: at in t.publications && t.publications[at].series == id ==>
          at in Volumes(t.publications, id);
      }
    }
  }

  /** After any run a search returns, once each, exactly the series that have volumes, are admitted, show one of the
      chosen values of each kind, and match by their name, shown values and volume titles. */
  lemma SearchReturnsExactly(t: Tables, steps: seq<Step>, q: Query, id: Key)
    requires Inv(t)
    ensures Hits(Run(t, steps), q, id) == if Answers(Run(t, steps), q, id) then 1 else 0
  {
    RunKeeps(t, steps);
    hide Run, Answers;
    FiledHoused(Run(t, steps));
    FreshAnswers(Run(t, steps), q, id);
  }

  /** Saving what the provider sends replaces the provider's values and nothing the administrator set; editing replaces
      what the administrator set and nothing of the provider's. */
  lemma OverridesWin(t: Tables, id: Key, values: Values, overrides: Values, kind: Key, shown: seq<Key>)
    requires id in t.series
    ensures var (saved, edited) := (Do(t, Save(id, values)), Do(t, Edit(id, overrides)));
      && (if id in t.metadata && kind in t.metadata[id].overrides
          then Shows(saved, id, kind, shown) <==> shown == t.metadata[id].overrides[kind]
          else Shows(saved, id, kind, shown) <==> kind in values && shown == values[kind])
      && (id in t.metadata ==>
        if kind in overrides then Shows(edited, id, kind, shown) <==> shown == overrides[kind]
        else Shows(edited, id, kind, shown) <==>
          kind in t.metadata[id].values && shown == t.metadata[id].values[kind])
  {
    hide IndexWith, FacetsWith;
  }

  /** Indexing a path writes its volume under the series the path names, keeps the identifier of a path that is known,
      and leaves every other volume and series as it was. */
  lemma IndexedVolume(t: Tables, at: Place, id: Key, title: Key, pages: nat, drawn: Key)
    requires Inv(t) && drawn !in t.series
    requires at in t.publications || forall other :: other in t.publications ==> t.publications[other].id != id
    ensures var u := Do(t, Index(at, id, title, pages, drawn));
      && u.publications.Keys == t.publications.Keys + {at}
      && (forall other :: other in t.publications && other != at ==> u.publications[other] == t.publications[other])
      && u.publications[at].title == title
      && u.publications[at].id == (if at in t.publications then t.publications[at].id else id)
      && u.publications[at].series in u.series
      && u.series[u.publications[at].series] == Series(at.library, at.category, at.series)
      && (forall s :: s in t.series ==> s in u.series && u.series[s] == t.series[s])
      && u.metadata == t.metadata
  {
    var known := if at in t.publications then t.publications[at].id else id;
    var item := Item(at, known, SeriesFor(t, at, drawn), title, pages);
    var row := Series(at.library, at.category, at.series);
    SeriesForFound(t, at, drawn);
    NotRefused(t, item);
    UpsertWrites(t, item, row);
    WrittenVolume(t, item, row);
    hide Fresh, SeriesFor, Upsert, Refused, Written;
  }

  lemma NotRefused(t: Tables, item: Item)
    requires if item.at in t.publications then t.publications[item.at].id == item.id
             else forall other :: other in t.publications ==> t.publications[other].id != item.id
    ensures !Refused(t, item)
  {
    assert item.at in t.publications ==> item.at in PlacesOf(t.publications, item.id);
    assert item.at !in t.publications ==> PlacesOf(t.publications, item.id) == {};
  }

  lemma WrittenVolume(t: Tables, item: Item, row: Series)
    ensures var w := Written(t, item, row);
      && w.publications.Keys == t.publications.Keys + {item.at}
      && (forall other :: other in t.publications && other != item.at ==>
        w.publications[other] == t.publications[other])
      && w.publications[item.at] ==
        Publication(if item.at in t.publications then t.publications[item.at].id else item.id, item.series, item.title)
      && item.series in w.series
      && w.series[item.series] == (if item.series in t.series then t.series[item.series] else row)
      && (forall s :: s in t.series ==> s in w.series && w.series[s] == t.series[s])
  {
  }

  lemma UpsertWrites(t: Tables, item: Item, row: Series)
    requires !Refused(t, item)
    ensures var (u, w) := (Upsert(t, item, row), Written(t, item, row));
      u.publications == w.publications && u.series == w.series && u.metadata == t.metadata
  {
    hide IndexWith, FacetsWith, SeriesIndexed;
  }

  /** Which volumes are left: a prune keeps what was seen and what other libraries have; removing libraries keeps the
      volumes of the others. */
  lemma VolumesLeft(t: Tables, seen: set<Place>, within: Option<Key>, library: Key, at: Place)
    ensures var u := Do(t, PruneAll(seen, within)).publications;
      && (at in u <==> at in t.publications && (at in seen || (within.Some? && at.library != within.value)))
      && (at in u ==> u[at] == t.publications[at])
    ensures var u := Do(t, Remove(library)).publications;
      (at in u <==> at in t.publications && at.library != library) && (at in u ==> u[at] == t.publications[at])
    ensures var u := Do(t, ForgetMount([library])).publications;
      (at in u <==> at in t.publications && at.library != library) && (at in u ==> u[at] == t.publications[at])
  {
    hide IndexWith, FacetsWith;
    assert ForgetAll(t, [library]) == ForgetAll(ForgetLibrary(t, library), []);
  }
}
