/** What a slice of the contract holds, said of the JSON values themselves. */
module SliceMeaning {
  import opened Common
  import opened ContractSlice

  /** One of the tags is in the value's list of tags. */
  ghost predicate Tagged(value: Node, tags: set<Key>) {
    value.Object? && exists list, tag ::
      Holds(value.fields, Tags, List(list)) && Text(tag) in list && Key(tag) in tags
  }

  ghost predicate HasResponses(value: Node) {
    value.Object? && exists responses :: Holds(value.fields, Responses, responses)
  }

  /** The operation's `security` has an entry with the scheme among its keys, whichever entry and whichever key. */
  ghost predicate AsksFor(value: Node, scheme: Key) {
    value.Object? && exists list, requirement, scopes ::
      && Holds(value.fields, Security, List(list))
      && Object(requirement) in list
      && Field(Named(scheme), scopes) in requirement
  }

  /** The path stays, and with it the field. */
  ghost predicate Stays(item: PathItem, tags: set<Key>, f: Field) {
    && f in item.fields
    && (exists g :: g in item.fields && Tagged(g.value, tags))
    && (Tagged(f.value, tags) || !HasResponses(f.value))
  }

  lemma ItemsExactly(value: Node, name: Name, list: seq<Node>)
    requires value.Object? && list != []
    ensures ItemsOf(value, name) == list <==> Holds(value.fields, name, List(list))
  {
    GetExactly(value.fields, name, List(list));
  }

  lemma SelectedIsTagged(value: Node, tags: set<Key>)
    ensures Selected(value, tags) <==> Tagged(value, tags)
  {
    if value.Object? {
      var items := ItemsOf(value, Tags);
      if Selected(value, tags) {
        ItemsExactly(value, Tags, items);
        var i :| 0 <= i < |items| && IsTag(items[i], tags);
        assert Text(items[i].text) in items;
      }
      if Tagged(value, tags) {
        var list, tag :| Holds(value.fields, Tags, List(list)) && Text(tag) in list && Key(tag) in tags;
        ItemsExactly(value, Tags, list);
        var i :| 0 <= i < |list| && list[i] == Text(tag);
        assert IsTag(items[i], tags);
      }
    }
  }

  lemma SharedIsResponseless(value: Node)
    ensures Shared(value) <==> !HasResponses(value)
  {
    if value.Object? {
      var found := Get(value.fields, Responses);
      if found.Some? {
        GetExactly(value.fields, Responses, found.value);
      }
      forall responses | Holds(value.fields, Responses, responses) ensures found.Some? {
        GetExactly(value.fields, Responses, responses);
      }
    }
  }

  lemma SchemesAskedFor(value: Node, scheme: Key)
    ensures scheme in SchemesOf(value) <==> AsksFor(value, scheme)
  {
    var items := ItemsOf(value, Security);
    if scheme in SchemesOf(value) {
      var i, j :| 0 <= i < |items| && 0 <= j < Size(items[i]) && items[i].Object? && items[i].fields[j].name.Named?
        && scheme == items[i].fields[j].name.name;
      ItemsExactly(value, Security, items);
      assert Object(items[i].fields) in items && Field(Named(scheme), items[i].fields[j].value) in items[i].fields;
    }
    if AsksFor(value, scheme) {
      var list, requirement, scopes :| Holds(value.fields, Security, List(list)) && Object(requirement) in list
        && Field(Named(scheme), scopes) in requirement;
      ItemsExactly(value, Security, list);
      var i :| 0 <= i < |list| && list[i] == Object(requirement);
      var j :| 0 <= j < |requirement| && requirement[j] == Field(Named(scheme), scopes);
      assert items[i].fields[j].name.name == scheme;
    }
  }

  lemma AnySelectedIsTagged(fields: seq<Field>, tags: set<Key>)
    ensures AnySelected(fields, tags) <==> exists g :: g in fields && Tagged(g.value, tags)
  {
    forall i | 0 <= i < |fields| ensures Selected(fields[i].value, tags) <==> Tagged(fields[i].value, tags) {
      SelectedIsTagged(fields[i].value, tags);
    }
    hide Selected, Tagged;
    if g :| g in fields && Tagged(g.value, tags) {
      var i :| 0 <= i < |fields| && fields[i] == g;
      assert Selected(fields[i].value, tags);
    }
  }

  lemma StaysExactly(item: PathItem, tags: set<Key>, f: Field)
    ensures AnySelected(item.fields, tags) && f in KeptFields(item.fields, tags) <==> Stays(item, tags, f)
  {
    AnySelectedIsTagged(item.fields, tags);
    KeptFieldsExact(item.fields, tags, f);
    SelectedIsTagged(f.value, tags);
    SharedIsResponseless(f.value);
    hide AnySelected, KeptFields, Selected, Shared, Tagged, HasResponses;
  }

  lemma KeptStays(document: Document, tags: set<Key>, kept: PathItem, f: Field)
    requires kept in KeptPaths(document.paths, tags) && f in kept.fields
    ensures exists item :: item in document.paths && item.path == kept.path && Stays(item, tags, f)
  {
    KeptPathsExact(document.paths, tags, kept);
    hide AnySelected, KeptFields, Stays, KeptPaths;
    var i :| 0 <= i < |document.paths| && AnySelected(document.paths[i].fields, tags)
      && kept == PathItem(document.paths[i].path, KeptFields(document.paths[i].fields, tags));
    StaysExactly(document.paths[i], tags, f);
    assert document.paths[i] in document.paths;
  }

  lemma StaysKept(document: Document, tags: set<Key>, item: PathItem, f: Field)
    requires item in document.paths && Stays(item, tags, f)
    ensures exists kept :: kept in KeptPaths(document.paths, tags) && kept.path == item.path && f in kept.fields
  {
    var kept := PathItem(item.path, KeptFields(item.fields, tags));
    StaysExactly(item, tags, f);
    KeptPathsExact(document.paths, tags, kept);
    hide AnySelected, KeptFields, Stays, KeptPaths;
    var i :| 0 <= i < |document.paths| && document.paths[i] == item;
    assert kept in KeptPaths(document.paths, tags);
  }

  /** An operation is in the slice if and only if it has one of the tags; what stands beside operations, under the same
      path, if and only if one of them is; and both are as they were. */
  lemma OperationsExactly(document: Document, tags: set<Key>, path: Key, f: Field)
    ensures (exists kept :: kept in Slice(document, tags).paths && kept.path == path && f in kept.fields) <==>
      exists item :: item in document.paths && item.path == path && Stays(item, tags, f)
  {
    var paths := KeptPaths(document.paths, tags);
    assert Slice(document, tags).paths == paths;
    hide Stays, KeptPaths, Slice;
    if kept :| kept in paths && kept.path == path && f in kept.fields {
      KeptStays(document, tags, kept, f);
    }
    if item :| item in document.paths && item.path == path && Stays(item, tags, f) {
      StaysKept(document, tags, item, f);
    }
  }

  /** A security scheme the source defines is in the slice if and only if a value under one of the slice's paths asks
      for it. */
  lemma SchemesExactly(document: Document, tags: set<Key>, scheme: Key)
    requires scheme in document.securitySchemes
    ensures var slice := Slice(document, tags);
      scheme in slice.securitySchemes <==>
        exists item, f :: item in slice.paths && f in item.fields && AsksFor(f.value, scheme)
  {
    var paths := KeptPaths(document.paths, tags);
    hide KeptPaths, Reachable, PathRefs, SchemesOf, AsksFor;
    SchemesTravel(document, tags, scheme);
    if Required(paths, scheme) {
      var i, j :| 0 <= i < |paths| && 0 <= j < |paths[i].fields| && scheme in SchemesOf(paths[i].fields[j].value);
      SchemesAskedFor(paths[i].fields[j].value, scheme);
      assert paths[i] in paths && paths[i].fields[j] in paths[i].fields;
    }
    if item, f :| item in paths && f in item.fields && AsksFor(f.value, scheme) {
      SchemesAskedFor(f.value, scheme);
      var i :| 0 <= i < |paths| && paths[i] == item;
      var j :| 0 <= j < |item.fields| && item.fields[j] == f;
      assert scheme in SchemesOf(paths[i].fields[j].value);
    }
  }

  lemma {:induction false} RootsMentioned(paths: seq<PathItem>, name: Key)
    ensures name in PathRefs(paths) <==>
      exists i :: 0 <= i < |paths| && Mentions(Object(paths[i].fields), name)
    decreases |paths|
  {
    if paths != [] {
      var (rest, last) := (paths[..|paths| - 1], paths[|paths| - 1]);
      RootsMentioned(rest, name);
      RefsExact(Object(last.fields), name);
      hide Mentions, Refs;
      assert forall i :: 0 <= i < |rest| ==> rest[i] == paths[i];
    }
  }

  /** Names that lead from a value under one of the paths to a schema, each mentioned somewhere in the one before. */
  ghost predicate Trail(document: Document, paths: seq<PathItem>, trail: seq<Key>) {
    && trail != []
    && (exists i :: 0 <= i < |paths| && Mentions(Object(paths[i].fields), trail[0]))
    && forall n :: 0 < n < |trail| ==> LinksTo(document, trail[n - 1], trail[n])
  }

  ghost predicate LinksTo(document: Document, from: Key, to: Key) {
    from in document.schemas && Mentions(document.schemas[from], to)
  }

  lemma LinksAreRefs(document: Document, from: Key, to: Key)
    ensures to in RefsOf(document.schemas, from) <==> LinksTo(document, from, to)
  {
    if from in document.schemas {
      RefsExact(document.schemas[from], to);
    }
  }

  lemma TrailIsChain(document: Document, paths: seq<PathItem>, trail: seq<Key>)
    ensures Trail(document, paths, trail) <==> Chain(document.schemas, PathRefs(paths), trail)
  {
    if trail != [] {
      RootsMentioned(paths, trail[0]);
    }
    forall n | 0 < n < |trail|
      ensures trail[n] in RefsOf(document.schemas, trail[n - 1]) <==> LinksTo(document, trail[n - 1], trail[n])
    {
      LinksAreRefs(document, trail[n - 1], trail[n]);
    }
    hide Mentions, PathRefs, RefsOf, LinksTo;
  }

  /** A schema is in the slice if and only if the source defines it and a trail of references leads to it from the
      slice's paths; and it is as it was. */
  lemma SchemasExactly(document: Document, tags: set<Key>, name: Key)
    ensures var slice := Slice(document, tags);
      && (name in slice.schemas <==>
        && name in document.schemas
        && exists trail :: Trail(document, slice.paths, trail) && trail[|trail| - 1] == name)
      && (name in slice.schemas ==> slice.schemas[name] == document.schemas[name])
  {
    var paths := KeptPaths(document.paths, tags);
    forall trail ensures Trail(document, paths, trail) <==> Chain(document.schemas, PathRefs(paths), trail) {
      TrailIsChain(document, paths, trail);
    }
    hide Trail, Chain, KeptPaths, PathRefs, Schemes;
  }
}
