/** Slicing the published contract by tag (`tagged_contract` in `app.py`). */
module ContractSlice {
  import opened Common

  /** A field's name: one of those the slicing looks at, or any other. */
  datatype Name = Ref | Tags | Responses | Security | Named(name: Key)

  /** A JSON value; an object's fields in their order, each name once. */
  datatype Node = Object(fields: seq<Field>) | List(items: seq<Node>) | Text(text: string) | Scalar

  datatype Field = Field(name: Name, value: Node)

  datatype PathItem = PathItem(path: Key, fields: seq<Field>)

  datatype Document = Document(paths: seq<PathItem>, schemas: map<Key, Node>, securitySchemes: map<Key, Node>)

  const SCHEMA_PREFIX := "#/components/schemas/"

  function Get(fields: seq<Field>, name: Name): Option<Node> {
    if fields == [] then None
    else if fields[0].name == name then Some(fields[0].value)
    else Get(fields[1..], name)
  }

  // ---- References --------------------------------------------------------------------------

  /** The schema a `$ref` text names, if it names one. */
  function SchemaName(text: string): Option<Key> {
    if |text| >= |SCHEMA_PREFIX| && text[..|SCHEMA_PREFIX|] == SCHEMA_PREFIX
    then Some(Key(text[|SCHEMA_PREFIX|..]))
    else None
  }

  /** The schema an object refers to itself. */
  function OwnRef(fields: seq<Field>): Option<Key> {
    var reference := Get(fields, Ref);
    if reference.Some? && reference.value.Text? then SchemaName(reference.value.text) else None
  }

  function AsSet(name: Option<Key>): set<Key> {
    if name.Some? then {name.value} else {}
  }

  function Size(node: Node): nat {
    if node.Object? then |node.fields| else if node.List? then |node.items| else 0
  }

  /** The value of a field, or an item. */
  function Part(node: Node, i: nat): (part: Node)
    requires i < Size(node)
    ensures part < node
  {
    if node.Object? then node.fields[i].value else node.items[i]
  }

  function Refs(node: Node): set<Key>
    decreases node, Size(node) + 1
  {
    (if node.Object? then AsSet(OwnRef(node.fields)) else {}) + PartRefs(node, 0)
  }

  function PartRefs(node: Node, i: nat): set<Key>
    requires i <= Size(node)
    decreases node, Size(node) - i
  {
    if i == Size(node) then {} else Refs(Part(node, i)) + PartRefs(node, i + 1)
  }

  /** `trail` leads from a node down to one of its parts. */
  ghost predicate Leads(node: Node, trail: seq<nat>, part: Node)
    decreases |trail|
  {
    if trail == [] then node == part else trail[0] < Size(node) && Leads(Part(node, trail[0]), trail[1..], part)
  }

  /** The value an object has under a name. */
  ghost predicate Holds(fields: seq<Field>, name: Name, value: Node) {
    exists i ::
      && 0 <= i < |fields|
      && fields[i] == Field(name, value)
      && forall j :: 0 <= j < i ==> fields[j].name != name
  }

  /** The object's `$ref` is the schema's path in the document. */
  ghost predicate PointsTo(part: Node, name: Key) {
    part.Object? && Holds(part.fields, Ref, Text("#/components/schemas/" + name.name))
  }

  lemma {:induction false} GetExactly(fields: seq<Field>, name: Name, value: Node)
    ensures Get(fields, name) == Some(value) <==> Holds(fields, name, value)
  {
    if fields != [] {
      GetExactly(fields[1..], name, value);
      if fields[0].name == name {
        assert fields[0] == Field(name, fields[0].value);
      } else {
        assert forall i :: 0 <= i < |fields| - 1 ==> fields[1..][i] == fields[i + 1];
        if Holds(fields[1..], name, value) {
          var i :| 0 <= i < |fields| - 1 && fields[1..][i] == Field(name, value)
            && forall j :: 0 <= j < i ==> fields[1..][j].name != name;
          assert forall j :: 0 <= j < i + 1 ==> fields[j].name != name;
          assert fields[i + 1] == Field(name, value);
        }
        if Holds(fields, name, value) {
          var i :| 0 <= i < |fields| && fields[i] == Field(name, value)
            && forall j :: 0 <= j < i ==> fields[j].name != name;
          assert fields[1..][i - 1] == Field(name, value);
        }
      }
    }
  }

  lemma OwnRefExactly(fields: seq<Field>, name: Key)
    ensures OwnRef(fields) == Some(name) <==> PointsTo(Object(fields), name)
  {
    var text := "#/components/schemas/" + name.name;
    assert text[..|SCHEMA_PREFIX|] == SCHEMA_PREFIX && text[|SCHEMA_PREFIX|..] == name.name;
    GetExactly(fields, Ref, Text(text));
    var reference := Get(fields, Ref);
    if reference.Some? && reference.value.Text? && OwnRef(fields) == Some(name) {
      assert reference.value.text == SCHEMA_PREFIX + name.name;
    }
    hide Holds;
  }

  ghost predicate Mentions(node: Node, name: Key) {
    exists trail, part :: Leads(node, trail, part) && PointsTo(part, name)
  }

  lemma {:induction false} PartRefsAt(node: Node, i: nat, name: Key)
    requires i <= Size(node)
    ensures name in PartRefs(node, i) <==> exists k: nat :: i <= k < Size(node) && name in Refs(Part(node, k))
    decreases Size(node) - i
  {
    if i < Size(node) {
      PartRefsAt(node, i + 1, name);
      assert name in Refs(Part(node, i)) ==> name in PartRefs(node, i);
    }
  }

  lemma {:induction false} FoundIfMentioned(node: Node, trail: seq<nat>, part: Node, name: Key)
    requires Leads(node, trail, part) && PointsTo(part, name)
    ensures name in Refs(node)
    decreases |trail|
  {
    OwnRefExactly(part.fields, name);
    if trail != [] {
      FoundIfMentioned(Part(node, trail[0]), trail[1..], part, name);
      PartRefsAt(node, 0, name);
    }
  }

  lemma {:induction false} MentionedIfFound(node: Node, name: Key) returns (trail: seq<nat>, part: Node)
    requires name in Refs(node)
    ensures Leads(node, trail, part) && PointsTo(part, name)
    decreases node
  {
    if node.Object? {
      OwnRefExactly(node.fields, name);
    }
    if node.Object? && OwnRef(node.fields) == Some(name) {
      trail, part := [], node;
    } else {
      PartRefsAt(node, 0, name);
      var i: nat :| i < Size(node) && name in Refs(Part(node, i));
      var rest, found := MentionedIfFound(Part(node, i), name);
      trail, part := [i] + rest, found;
      assert trail[1..] == rest;
    }
  }

  /** The references collected from a value are just those some part of it makes. */
  lemma RefsExact(node: Node, name: Key)
    ensures name in Refs(node) <==> Mentions(node, name)
  {
    if name in Refs(node) {
      var trail, part := MentionedIfFound(node, name);
    }
    if Mentions(node, name) {
      var trail, part :| Leads(node, trail, part) && PointsTo(part, name);
      FoundIfMentioned(node, trail, part, name);
    }
  }

  /** `_collect_refs`, adding to the names found so far. */
  method CollectRefs(node: Node, found: set<Key>) returns (all: set<Key>)
    ensures all == found + Refs(node)
    decreases node
  {
    all := found;
    if node.Object? {
      var own := OwnRef(node.fields);
      if own.Some? {
        all := all + {own.value};
      }
    }
    for i := 0 to Size(node)
      invariant all + PartRefs(node, i) == found + Refs(node)
    {
      all := CollectRefs(Part(node, i), all);
    }
  }

  // ---- The worklist ------------------------------------------------------------------------

  /** `schemas.get(name, {})`. */
  function RefsOf(schemas: map<Key, Node>, name: Key): set<Key> {
    if name in schemas then Refs(schemas[name]) else {}
  }

  /** A chain of references from a root to a name. */
  ghost predicate Chain(schemas: map<Key, Node>, roots: set<Key>, chain: seq<Key>) {
    && chain != []
    && chain[0] in roots
    && forall i :: 0 < i < |chain| ==> chain[i] in RefsOf(schemas, chain[i - 1])
  }

  ghost predicate Reachable(schemas: map<Key, Node>, roots: set<Key>, name: Key) {
    exists chain :: Chain(schemas, roots, chain) && chain[|chain| - 1] == name
  }

  ghost predicate Closed(schemas: map<Key, Node>, names: set<Key>) {
    forall name :: name in names ==> RefsOf(schemas, name) <= names
  }

  lemma ReachOneMore(schemas: map<Key, Node>, roots: set<Key>, name: Key, next: Key)
    requires Reachable(schemas, roots, name) && next in RefsOf(schemas, name)
    ensures Reachable(schemas, roots, next)
  {
    var chain :| Chain(schemas, roots, chain) && chain[|chain| - 1] == name;
    var longer := chain + [next];
    assert Chain(schemas, roots, longer) && longer[|longer| - 1] == next;
  }

  lemma {:induction false} ChainStaysWithin(schemas: map<Key, Node>, roots: set<Key>, chain: seq<Key>,
    names: set<Key>)
    requires Chain(schemas, roots, chain) && roots <= names && Closed(schemas, names)
    ensures chain[|chain| - 1] in names
    decreases |chain|
  {
    if |chain| > 1 {
      var before := chain[..|chain| - 1];
      assert Chain(schemas, roots, before);
      ChainStaysWithin(schemas, roots, before, names);
      assert chain[|chain| - 1] in RefsOf(schemas, chain[|chain| - 2]);
    }
  }

  /** A closed set that holds the roots holds everything reachable; so the reachable names are the least. */
  lemma ReachableIsLeast(schemas: map<Key, Node>, roots: set<Key>, names: set<Key>, name: Key)
    requires roots <= names && Closed(schemas, names) && Reachable(schemas, roots, name)
    ensures name in names
  {
    var chain :| Chain(schemas, roots, chain) && chain[|chain| - 1] == name;
    ChainStaysWithin(schemas, roots, chain, names);
  }

  /** Every name there could be. */
  ghost function Universe(schemas: map<Key, Node>, roots: set<Key>): set<Key> {
    roots + (set name, ref | name in schemas && ref in Refs(schemas[name]) :: ref)
  }

  /** Names found but not yet followed are all that keeps the rest from being closed. */
  ghost predicate ClosedBut(schemas: map<Key, Node>, names: set<Key>, pending: set<Key>) {
    forall name :: name in names && name !in pending ==> RefsOf(schemas, name) <= names
  }

  ghost predicate AllReachable(schemas: map<Key, Node>, roots: set<Key>, names: set<Key>) {
    forall name :: name in names ==> Reachable(schemas, roots, name)
  }

  lemma RootsReachable(schemas: map<Key, Node>, roots: set<Key>)
    ensures AllReachable(schemas, roots, roots)
  {
    forall name | name in roots
      ensures Reachable(schemas, roots, name)
    {
      assert Chain(schemas, roots, [name]) && [name][|[name]| - 1] == name;
    }
  }

  lemma NestedReachable(schemas: map<Key, Node>, roots: set<Key>, name: Key, names: set<Key>)
    requires AllReachable(schemas, roots, names) && name in names
    ensures AllReachable(schemas, roots, names + RefsOf(schemas, name))
  {
    forall next | next in RefsOf(schemas, name)
      ensures Reachable(schemas, roots, next)
    {
      ReachOneMore(schemas, roots, name, next);
    }
  }

  ghost predicate Underway(schemas: map<Key, Node>, roots: set<Key>, wanted: set<Key>, pending: set<Key>) {
    && roots <= wanted
    && pending <= wanted <= Universe(schemas, roots)
    && ClosedBut(schemas, wanted, pending)
    && AllReachable(schemas, roots, wanted)
  }

  lemma Starts(schemas: map<Key, Node>, roots: set<Key>)
    ensures Underway(schemas, roots, roots, roots)
  {
    RootsReachable(schemas, roots);
  }

  lemma ClosedButFollowed(schemas: map<Key, Node>, wanted: set<Key>, pending: set<Key>, name: Key, discovered: set<Key>)
    requires ClosedBut(schemas, wanted, pending) && discovered == RefsOf(schemas, name) - wanted
    ensures ClosedBut(schemas, wanted + discovered, pending - {name} + discovered)
  {
  }

  lemma NamesFollowed(schemas: map<Key, Node>, roots: set<Key>, wanted: set<Key>, pending: set<Key>, name: Key,
    discovered: set<Key>)
    requires roots <= wanted && pending <= wanted <= Universe(schemas, roots)
    requires name in pending && discovered == RefsOf(schemas, name) - wanted
    ensures roots <= wanted + discovered && wanted !! discovered
    ensures pending - {name} + discovered <= wanted + discovered <= Universe(schemas, roots)
  {
  }

  lemma ReachableFollowed(schemas: map<Key, Node>, roots: set<Key>, wanted: set<Key>, name: Key, discovered: set<Key>)
    requires AllReachable(schemas, roots, wanted) && name in wanted && discovered == RefsOf(schemas, name) - wanted
    ensures AllReachable(schemas, roots, wanted + discovered)
  {
    NestedReachable(schemas, roots, name, wanted);
    hide RefsOf, Reachable;
  }

  lemma FollowOne(schemas: map<Key, Node>, roots: set<Key>, wanted: set<Key>, pending: set<Key>, name: Key,
    discovered: set<Key>)
    requires Underway(schemas, roots, wanted, pending) && name in pending
    requires discovered == RefsOf(schemas, name) - wanted
    ensures Underway(schemas, roots, wanted + discovered, pending - {name} + discovered)
  {
    hide Universe, RefsOf;
    assert ClosedBut(schemas, wanted + discovered, pending - {name} + discovered) by {
      ClosedButFollowed(schemas, wanted, pending, name, discovered);
    }
    assert AllReachable(schemas, roots, wanted + discovered) by {
      ReachableFollowed(schemas, roots, wanted, name, discovered);
    }
    hide ClosedBut, AllReachable;
    NamesFollowed(schemas, roots, wanted, pending, name, discovered);
  }

  lemma Finished(schemas: map<Key, Node>, roots: set<Key>, wanted: set<Key>)
    requires Underway(schemas, roots, wanted, {})
    ensures forall name :: name in wanted <==> Reachable(schemas, roots, name)
    ensures Closed(schemas, wanted)
  {
    forall name | Reachable(schemas, roots, name)
      ensures name in wanted
    {
      ReachableIsLeast(schemas, roots, wanted, name);
    }
  }

  /** One turn of the loop: `pop` a name and follow its references. */
  method Follow(schemas: map<Key, Node>, ghost roots: set<Key>, wanted: set<Key>, pending: set<Key>)
    returns (more: set<Key>, left: set<Key>)
    requires Underway(schemas, roots, wanted, pending) && pending != {}
    ensures Underway(schemas, roots, more, left)
    ensures wanted < more || (more == wanted && left < pending)
  {
    ghost var some := Pick(pending);
    hide Refs;
    var name :| name in pending;
    var nested := {};
    if name in schemas {
      nested := CollectRefs(schemas[name], {});
    }
    assert nested == RefsOf(schemas, name);
    var discovered := nested - wanted;
    FollowOne(schemas, roots, wanted, pending, name, discovered);
    hide Underway, RefsOf;
    more, left := wanted + discovered, pending - {name} + discovered;
  }

  /** The loop over `pending`: it ends, with exactly the names reachable from the roots. */
  method Close(schemas: map<Key, Node>, roots: set<Key>) returns (wanted: set<Key>)
    ensures forall name :: name in wanted <==> Reachable(schemas, roots, name)
    ensures Closed(schemas, wanted)
  {
    wanted := roots;
    var pending := wanted;
    Starts(schemas, roots);
    hide ClosedBut, AllReachable, Universe, Reachable, Closed;
    while pending != {}
      invariant Underway(schemas, roots, wanted, pending)
      decreases Universe(schemas, roots) - wanted, pending
    {
      wanted, pending := Follow(schemas, roots, wanted, pending);
    }
    Finished(schemas, roots, wanted);
  }

  // ---- Which operations stay ---------------------------------------------------------------

  /** The items of a list-valued field: `value.get(name) or []`. */
  function ItemsOf(value: Node, name: Name): seq<Node> {
    if value.Object? && Get(value.fields, name).Some? && Get(value.fields, name).value.List?
      then Get(value.fields, name).value.items
      else []
  }

  predicate Selected(value: Node, tags: set<Key>) {
    value.Object? && exists i :: 0 <= i < |ItemsOf(value, Tags)| && IsTag(ItemsOf(value, Tags)[i], tags)
  }

  predicate IsTag(tag: Node, tags: set<Key>) {
    tag.Text? && Key(tag.text) in tags
  }

  /** What stands beside the operations of a path: they have responses, it does not. */
  predicate Shared(value: Node) {
    !value.Object? || Get(value.fields, Responses).None?
  }

  function SharedOnes(fields: seq<Field>): seq<Field> {
    if fields == [] then []
    else if Shared(fields[0].value) then [fields[0]] + SharedOnes(fields[1..])
    else SharedOnes(fields[1..])
  }

  function SelectedOnes(fields: seq<Field>, tags: set<Key>): seq<Field> {
    if fields == [] then []
    else if Selected(fields[0].value, tags) && !Shared(fields[0].value)
    then [fields[0]] + SelectedOnes(fields[1..], tags)
    else SelectedOnes(fields[1..], tags)
  }

  /** `{**shared, **operations}`: one that is both stands with the shared ones. */
  function KeptFields(fields: seq<Field>, tags: set<Key>): seq<Field> {
    SharedOnes(fields) + SelectedOnes(fields, tags)
  }

  predicate AnySelected(fields: seq<Field>, tags: set<Key>) {
    exists i :: 0 <= i < |fields| && Selected(fields[i].value, tags)
  }

  function KeptPaths(paths: seq<PathItem>, tags: set<Key>): seq<PathItem> {
    if paths == [] then []
    else
      var (rest, last) := (KeptPaths(paths[..|paths| - 1], tags), paths[|paths| - 1]);
      if AnySelected(last.fields, tags) then rest + [PathItem(last.path, KeptFields(last.fields, tags))] else rest
  }

  function PathRefs(paths: seq<PathItem>): set<Key> {
    if paths == [] then {}
    else PathRefs(paths[..|paths| - 1]) + Refs(Object(paths[|paths| - 1].fields))
  }

  /** The schemes an operation's `security` requires: the keys of each of its entries. */
  function SchemesOf(value: Node): set<Key> {
    set i, j | 0 <= i < |ItemsOf(value, Security)| && 0 <= j < Size(ItemsOf(value, Security)[i])
      && ItemsOf(value, Security)[i].Object? && ItemsOf(value, Security)[i].fields[j].name.Named?
      :: ItemsOf(value, Security)[i].fields[j].name.name
  }

  function Schemes(paths: seq<PathItem>): set<Key> {
    set i, j, scheme |
      0 <= i < |paths| && 0 <= j < |paths[i].fields| && scheme in SchemesOf(paths[i].fields[j].value) :: scheme
  }

  /** The slice: kept paths, the schemas reachable from them and the security schemes they require. */
  ghost function Slice(document: Document, tags: set<Key>): Document {
    var paths := KeptPaths(document.paths, tags);
    Document(paths,
      map name | name in document.schemas && Reachable(document.schemas, PathRefs(paths), name)
        :: document.schemas[name],
      map scheme | scheme in document.securitySchemes && scheme in Schemes(paths)
        :: document.securitySchemes[scheme])
  }

  lemma KeptPathsStep(paths: seq<PathItem>, tags: set<Key>, i: nat)
    requires i < |paths|
    ensures KeptPaths(paths[..i + 1], tags) == KeptPaths(paths[..i], tags)
      + (if AnySelected(paths[i].fields, tags) then [PathItem(paths[i].path, KeptFields(paths[i].fields, tags))]
         else [])
  {
    assert paths[..i + 1][..i] == paths[..i] && paths[..i + 1][i] == paths[i];
    hide KeptFields, AnySelected;
  }

  lemma PathRefsStep(paths: seq<PathItem>, item: PathItem)
    ensures PathRefs(paths + [item]) == PathRefs(paths) + Refs(Object(item.fields))
  {
  }

  method FilterPaths(paths: seq<PathItem>, tags: set<Key>) returns (kept: seq<PathItem>, roots: set<Key>)
    ensures kept == KeptPaths(paths, tags) && roots == PathRefs(kept)
  {
    kept, roots := [], {};
    assert paths[..0] == [];
    for i := 0 to |paths|
      invariant kept == KeptPaths(paths[..i], tags) && roots == PathRefs(kept)
    {
      var item := paths[i];
      KeptPathsStep(paths, tags, i);
      hide KeptFields, AnySelected, Refs, KeptPaths, PathRefs;
      if AnySelected(item.fields, tags) {
        var slim := PathItem(item.path, KeptFields(item.fields, tags));
        PathRefsStep(kept, slim);
        roots := CollectRefs(Object(slim.fields), roots);
        kept := kept + [slim];
      }
    }
    assert paths[..|paths|] == paths;
  }

  method TaggedContract(document: Document, tags: set<Key>) returns (slice: Document)
    ensures slice == Slice(document, tags)
  {
    var paths, roots := FilterPaths(document.paths, tags);
    var wanted := Close(document.schemas, roots);
    hide Reachable, KeptPaths, PathRefs, Schemes, Closed;
    slice := Document(paths, map name | name in document.schemas && name in wanted :: document.schemas[name],
      map scheme | scheme in document.securitySchemes && scheme in Schemes(paths) :: document.securitySchemes[scheme]);
  }

  // ---- What the slice is good for ----------------------------------------------------------

  lemma {:induction false} SharedOnesExact(fields: seq<Field>, f: Field)
    ensures f in SharedOnes(fields) <==> f in fields && Shared(f.value)
  {
    if fields != [] {
      SharedOnesExact(fields[1..], f);
      assert fields == [fields[0]] + fields[1..];
    }
  }

  lemma {:induction false} SelectedOnesExact(fields: seq<Field>, tags: set<Key>, f: Field)
    ensures f in SelectedOnes(fields, tags) <==> f in fields && Selected(f.value, tags) && !Shared(f.value)
  {
    if fields != [] {
      SelectedOnesExact(fields[1..], tags, f);
      assert fields == [fields[0]] + fields[1..];
    }
  }

  /** An operation is kept just when it has one of the tags; what is shared by all of a path is kept too, and
      nothing is altered. */
  lemma KeptFieldsExact(fields: seq<Field>, tags: set<Key>, f: Field)
    ensures f in KeptFields(fields, tags) <==> f in fields && (Shared(f.value) || Selected(f.value, tags))
  {
    SharedOnesExact(fields, f);
    SelectedOnesExact(fields, tags, f);
  }

  /** A path is kept just when one of its operations is. */
  lemma {:induction false} KeptPathsExact(paths: seq<PathItem>, tags: set<Key>, kept: PathItem)
    ensures kept in KeptPaths(paths, tags) <==>
      exists i :: 0 <= i < |paths| && AnySelected(paths[i].fields, tags)
        && kept == PathItem(paths[i].path, KeptFields(paths[i].fields, tags))
    decreases |paths|
  {
    if paths != [] {
      var rest := paths[..|paths| - 1];
      KeptPathsExact(rest, tags, kept);
      assert forall i :: 0 <= i < |rest| ==> rest[i] == paths[i];
      hide KeptFields, AnySelected;
    }
  }

  /** Every reference from the slice's paths or schemas to a schema the source defines resolves in the slice. */
  lemma ReferencesResolve(document: Document, tags: set<Key>, name: Key)
    requires name in document.schemas
    requires var slice := Slice(document, tags);
      name in PathRefs(slice.paths) || exists from :: from in slice.schemas && name in Refs(slice.schemas[from])
    ensures name in Slice(document, tags).schemas && Slice(document, tags).schemas[name] == document.schemas[name]
  {
    var slice := Slice(document, tags);
    var roots := PathRefs(slice.paths);
    if name in roots {
      RootsReachable(document.schemas, roots);
    } else {
      var from :| from in slice.schemas && name in Refs(slice.schemas[from]);
      ReachOneMore(document.schemas, roots, from, name);
    }
    hide Reachable, KeptPaths, PathRefs, Schemes, Refs;
  }

  /** Some operation of the slice asks for the scheme. */
  ghost predicate Required(paths: seq<PathItem>, scheme: Key) {
    exists i, j :: 0 <= i < |paths| && 0 <= j < |paths[i].fields| && scheme in SchemesOf(paths[i].fields[j].value)
  }

  /** A security scheme the source defines travels along just when an operation of the slice requires it. */
  lemma SchemesTravel(document: Document, tags: set<Key>, scheme: Key)
    requires scheme in document.securitySchemes
    ensures scheme in Slice(document, tags).securitySchemes <==> Required(Slice(document, tags).paths, scheme)
  {
    hide KeptPaths, SchemesOf, Reachable;
  }

  lemma {:induction false} ChainSurvives(schemas: map<Key, Node>, slice: map<Key, Node>, roots: set<Key>,
    chain: seq<Key>)
    requires forall name :: name in slice ==> name in schemas && slice[name] == schemas[name]
    requires forall name :: name in schemas && Reachable(schemas, roots, name) ==> name in slice
    requires Chain(schemas, roots, chain)
    ensures Chain(slice, roots, chain)
    decreases |chain|
  {
    if |chain| > 1 {
      var before := chain[..|chain| - 1];
      assert Chain(schemas, roots, before);
      ChainSurvives(schemas, slice, roots, before);
      var last := before[|before| - 1];
      assert Reachable(schemas, roots, last);
      assert chain[|chain| - 1] in RefsOf(schemas, last);
      hide Refs;
      forall i | 0 < i < |chain|
        ensures chain[i] in RefsOf(slice, chain[i - 1])
      {
        assert i < |before| ==> before[i] in RefsOf(slice, before[i - 1]);
      }
    }
  }

  /** What is reachable is reachable within the slice, so no schema is carried for nothing. */
  lemma ReachableWithin(document: Document, tags: set<Key>, name: Key)
    requires name in Slice(document, tags).schemas
    ensures var slice := Slice(document, tags); Reachable(slice.schemas, PathRefs(slice.paths), name)
  {
    var slice := Slice(document, tags);
    var roots := PathRefs(slice.paths);
    var chain :| Chain(document.schemas, roots, chain) && chain[|chain| - 1] == name;
    ChainSurvives(document.schemas, slice.schemas, roots, chain);
  }

  lemma {:induction false} SharedOnesAgain(fields: seq<Field>, tags: set<Key>)
    ensures SharedOnes(SharedOnes(fields)) == SharedOnes(fields) && SharedOnes(SelectedOnes(fields, tags)) == []
    ensures SelectedOnes(SharedOnes(fields), tags) == []
    ensures SelectedOnes(SelectedOnes(fields, tags), tags) == SelectedOnes(fields, tags)
  {
    if fields != [] {
      SharedOnesAgain(fields[1..], tags);
      hide Shared, Selected;
    }
  }

  lemma {:induction false} OnesJoin(a: seq<Field>, b: seq<Field>, tags: set<Key>)
    ensures SharedOnes(a + b) == SharedOnes(a) + SharedOnes(b)
    ensures SelectedOnes(a + b, tags) == SelectedOnes(a, tags) + SelectedOnes(b, tags)
  {
    if a == [] {
      assert a + b == b;
    } else {
      assert (a + b)[1..] == a[1..] + b;
      OnesJoin(a[1..], b, tags);
      hide Shared, Selected;
    }
  }

  lemma KeptFieldsAgain(fields: seq<Field>, tags: set<Key>)
    ensures KeptFields(KeptFields(fields, tags), tags) == KeptFields(fields, tags)
  {
    SharedOnesAgain(fields, tags);
    OnesJoin(SharedOnes(fields), SelectedOnes(fields, tags), tags);
    hide Shared, Selected, SharedOnes, SelectedOnes;
  }

  lemma StillSelected(fields: seq<Field>, tags: set<Key>)
    ensures AnySelected(fields, tags) ==> AnySelected(KeptFields(fields, tags), tags)
  {
    if AnySelected(fields, tags) {
      var i :| 0 <= i < |fields| && Selected(fields[i].value, tags);
      KeptFieldsExact(fields, tags, fields[i]);
      hide Shared, Selected, KeptFields;
      var k :| 0 <= k < |KeptFields(fields, tags)| && KeptFields(fields, tags)[k] == fields[i];
    }
  }

  lemma {:induction false} KeptPathsAgain(paths: seq<PathItem>, tags: set<Key>)
    ensures KeptPaths(KeptPaths(paths, tags), tags) == KeptPaths(paths, tags)
    decreases |paths|
  {
    if paths != [] {
      var (rest, last) := (KeptPaths(paths[..|paths| - 1], tags), paths[|paths| - 1]);
      KeptPathsAgain(paths[..|paths| - 1], tags);
      KeptFieldsAgain(last.fields, tags);
      StillSelected(last.fields, tags);
      hide KeptFields, AnySelected;
      if AnySelected(last.fields, tags) {
        var kept := rest + [PathItem(last.path, KeptFields(last.fields, tags))];
        assert kept[..|kept| - 1] == rest;
      }
    }
  }

  /** Slicing a slice by the same tags changes nothing. */
  lemma SliceOfSlice(document: Document, tags: set<Key>)
    ensures Slice(Slice(document, tags), tags) == Slice(document, tags)
  {
    var slice := Slice(document, tags);
    KeptPathsAgain(document.paths, tags);
    forall name | name in slice.schemas
      ensures Reachable(slice.schemas, PathRefs(slice.paths), name)
    {
      ReachableWithin(document, tags, name);
    }
    hide Reachable, KeptPaths, PathRefs, Schemes;
    var again := Slice(slice, tags);
    assert again.schemas == slice.schemas;
    assert again.securitySchemes == slice.securitySchemes;
  }
}
