/** The component tree resolver over the global `_components` and
    `_component_definitions` tables: lookups on the (parent, name) index, the
    downward walk from the root along a path, the upward walk that rebuilds a
    component's path, and the loads of components and definitions. */
module Components {
  import opened Common
  import opened ComponentTypes
  import opened Transactions

  type ComponentsTable = map<InternalId, Stored<ComponentMetadata>>
  type DefinitionsTable = map<InternalId, Stored<ComponentDefinitionMetadata>>
  type ComponentDoc = Parsed<ComponentMetadata>
  type DefinitionDoc = Parsed<ComponentDefinitionMetadata>

  datatype ComponentsError =
    | ComponentMissing(id: InternalId)
    | MissingRootComponent
    | MissingComponentDefinition(id: InternalId)
    | DuplicateDefinitionPath
    | ComponentNotFound

  /** A function path scoped to a component given by its path from the root. */
  datatype CanonicalizedComponentFunctionPath =
    CanonicalizedComponentFunctionPath(component: ComponentPath, udfPath: UdfPath)

  /** A module path scoped to the definition the component instantiates. */
  datatype CanonicalizedComponentModulePath =
    CanonicalizedComponentModulePath(component: ComponentDefinitionId, modulePath: string)

  // ---------------------------------------------------------------------------
  // Invariants of the components table

  /** Distinct components have distinct keys on the (parent, name) index: at most
      one root (parent null) and names unique among the children of a parent. */
  ghost predicate UniqueIndexKeys(comps: ComponentsTable)
  {
    forall a, b :: a in comps && b in comps && comps[a].value.componentType == comps[b].value.componentType ==> a == b
  }

  /** A parent is created before its children, so parent links cannot form a cycle. */
  ghost predicate ParentsCreatedFirst(comps: ComponentsTable)
  {
    forall id :: id in comps && comps[id].value.componentType.ChildComponent? && comps[id].value.componentType.parent in comps ==>
      comps[comps[id].value.componentType.parent].creationTime < comps[id].creationTime
  }

  // ---------------------------------------------------------------------------
  // Lookups on the (parent, name) index

  /** The row a query on the (parent, name) index selects: `None` asks for
      `parent == null`, which only the root has. */
  predicate MatchesQuery(m: ComponentMetadata, parentAndName: Option<(InternalId, ComponentName)>)
  {
    match parentAndName
    case None => m.componentType.App?
    case Some((parent, name)) => m.componentType == ChildComponent(parent, name)
  }

  /** `component_in_parent`: the first row of an ascending scan of the
      (parent, name) index restricted to the query, i.e. the matching component
      with the least id (the scan order the model assumes), or none. */
  function ComponentInParent(comps: ComponentsTable, parentAndName: Option<(InternalId, ComponentName)>): (r: Option<ComponentDoc>)
    ensures r.Some? <==> exists id :: id in comps && MatchesQuery(comps[id].value, parentAndName)
    ensures r.Some? ==> r.value.id in comps && r.value == ParsedAt(comps, r.value.id)
    ensures r.Some? ==> MatchesQuery(r.value.value, parentAndName)
    ensures r.Some? ==> forall id :: id in comps && MatchesQuery(comps[id].value, parentAndName) ==> r.value.id <= id
  {
    var matches := set id | id in comps && MatchesQuery(comps[id].value, parentAndName);
    assert forall id :: id in comps && MatchesQuery(comps[id].value, parentAndName) ==> id in matches;
    if matches == {} then None else Some(ParsedAt(comps, SetMin(matches)))
  }

  /** `root_component`: the component with no parent. */
  function RootComponent(comps: ComponentsTable): (r: Option<ComponentDoc>)
    ensures r.Some? <==> exists id :: id in comps && comps[id].value.componentType.App?
    ensures r.Some? ==> r.value.id in comps && r.value == ParsedAt(comps, r.value.id) && r.value.value.componentType.App?
  {
    ComponentInParent(comps, None)
  }

  /** Under unique index keys the lookup returns THE matching component. */
  lemma ComponentInParentIsUnique(comps: ComponentsTable, parentAndName: Option<(InternalId, ComponentName)>, id: InternalId)
    requires UniqueIndexKeys(comps)
    requires id in comps && MatchesQuery(comps[id].value, parentAndName)
    ensures ComponentInParent(comps, parentAndName) == Some(ParsedAt(comps, id))
  {
    var r := ComponentInParent(comps, parentAndName);
    assert r.Some?;
    var other := r.value.id;
    assert comps[other].value.componentType == comps[id].value.componentType by {
      match parentAndName
      case None =>
      case Some(_) =>
    }
  }

  // ---------------------------------------------------------------------------
  // Downward walk: path to component

  /** Follows one child lookup per segment of `path`, starting at `start`. */
  function ResolveFrom(comps: ComponentsTable, start: ComponentDoc, path: ComponentPath): (r: Option<ComponentDoc>)
    requires start.id in comps && start == ParsedAt(comps, start.id)
    ensures r.Some? ==> r.value.id in comps && r.value == ParsedAt(comps, r.value.id)
    ensures path == [] ==> r == Some(start)
    ensures r.Some? && path != [] ==>
      r.value.value.componentType.ChildComponent? && r.value.value.componentType.name == path[|path| - 1]
    decreases |path|
  {
    if path == [] then Some(start)
    else
      match ComponentInParent(comps, Some((start.id, path[0])))
      case None => None
      case Some(child) => ResolveFrom(comps, child, path[1..])
  }

  /** What `resolve_path` returns: none without a root; otherwise the walk from the root. */
  function Resolve(comps: ComponentsTable, path: ComponentPath): (r: Option<ComponentDoc>)
    ensures RootComponent(comps).None? ==> r.None?
    ensures path == [] ==> r == RootComponent(comps)
    ensures r.Some? ==> r.value.id in comps && r.value == ParsedAt(comps, r.value.id)
    ensures r.Some? && path != [] ==>
      r.value.value.componentType.ChildComponent? && r.value.value.componentType.name == path[|path| - 1]
  {
    match RootComponent(comps)
    case None => None
    case Some(root) => ResolveFrom(comps, root, path)
  }

  /** `resolve_path`: starts at the root and replaces the current component by
      its child of the next name, giving up at the first name without a child. */
  method ResolvePath(tx: Transaction, path: ComponentPath) returns (r: Option<ComponentDoc>)
    ensures r == Resolve(tx.components, path)
  {
    var root := RootComponent(tx.components);
    if root.None? {
      return None;
    }
    var componentDoc := root.value;
    for i := 0 to |path|
      invariant componentDoc.id in tx.components && componentDoc == ParsedAt(tx.components, componentDoc.id)
      invariant Resolve(tx.components, path) == ResolveFrom(tx.components, componentDoc, path[i..])
    {
      var next := ComponentInParent(tx.components, Some((componentDoc.id, path[i])));
      if next.None? {
        return None;
      }
      assert path[i..][1..] == path[i + 1..];
      componentDoc := next.value;
    }
    return Some(componentDoc);
  }

  /** Walking one more name down from where `path` leads. */
  lemma {:induction false} ResolveFromSnoc(comps: ComponentsTable, start: ComponentDoc, path: ComponentPath, name: ComponentName)
    requires start.id in comps && start == ParsedAt(comps, start.id)
    ensures ResolveFrom(comps, start, path + [name]) ==
      match ResolveFrom(comps, start, path)
      case None => None
      case Some(d) => ComponentInParent(comps, Some((d.id, name)))
    decreases |path|
  {
    if path == [] {
      assert ([] + [name])[1..] == [];
    } else {
      assert (path + [name])[0] == path[0];
      assert (path + [name])[1..] == path[1..] + [name];
      match ComponentInParent(comps, Some((start.id, path[0])))
      case None =>
      case Some(child) => ResolveFromSnoc(comps, child, path[1..], name);
    }
  }

  // ---------------------------------------------------------------------------
  // Upward walk: component to path

  /** Termination measure of the upward walk: a stored child ranks by its
      creation time; the root id and a missing record rank lowest. */
  function Rank(comps: ComponentsTable, cid: ComponentId): nat
  {
    if cid.Child? && cid.internalId in comps then comps[cid.internalId].creationTime + 1 else 0
  }

  /** What `get_component_path` returns: the names from the root down to the
      component, or the first missing record on the way up. */
  function PathOf(comps: ComponentsTable, cid: ComponentId): (r: Result<ComponentPath, ComponentsError>)
    requires ParentsCreatedFirst(comps)
    ensures cid.Root? ==> r == Ok([])
    ensures r.Err? ==> r.error.ComponentMissing? && r.error.id !in comps
    ensures cid.Child? && cid.internalId !in comps ==> r == Err(ComponentMissing(cid.internalId))
    ensures r.Ok? && cid.Child? ==> cid.internalId in comps
    ensures r.Ok? && cid.Child? && comps[cid.internalId].value.componentType.ChildComponent? ==>
      r.value != [] && r.value[|r.value| - 1] == comps[cid.internalId].value.componentType.name
    decreases Rank(comps, cid)
  {
    match cid
    case Root => Ok([])
    case Child(id) =>
      if id !in comps then Err(ComponentMissing(id))
      else
        match comps[id].value.componentType
        case App => Ok([])
        case ChildComponent(parent, name) =>
          match PathOf(comps, Child(parent))
          case Err(e) => Err(e)
          case Ok(p) => Ok(p + [name])
  }

  /** Appends a suffix to a successful path and leaves an error alone. */
  function Extend(r: Result<ComponentPath, ComponentsError>, suffix: ComponentPath): (e: Result<ComponentPath, ComponentsError>)
    ensures e.Err? <==> r.Err?
    ensures r.Err? ==> e == r
  {
    match r
    case Ok(p) => Ok(p + suffix)
    case Err(err) => Err(err)
  }

  /** `get_component_path`: follows parent links up while the id is a child,
      collecting names, fails on a missing record, and finally reverses the
      names into root-to-leaf order. */
  method GetComponentPath(tx: Transaction, componentId: ComponentId) returns (r: Result<ComponentPath, ComponentsError>)
    requires ParentsCreatedFirst(tx.components)
    ensures r == PathOf(tx.components, componentId)
  {
    var path: seq<ComponentName> := [];
    var current := componentId;
    ExtendByNothing(PathOf(tx.components, componentId));
    while current.Child?
      invariant PathOf(tx.components, componentId) == Extend(PathOf(tx.components, current), Reverse(path))
      decreases Rank(tx.components, current)
    {
      var id := current.internalId;
      if id !in tx.components {
        return Err(ComponentMissing(id));
      }
      var componentDoc := ParsedAt(tx.components, id);
      match componentDoc.value.componentType
      case App =>
        current := Root;
      case ChildComponent(parent, name) =>
        ReverseSnoc(path, name);
        ExtendTwice(PathOf(tx.components, Child(parent)), [name], Reverse(path));
        path := path + [name];
        current := Child(parent);
    }
    assert [] + Reverse(path) == Reverse(path);
    path := Reverse(path);
    return Ok(path);
  }

  lemma ExtendByNothing(r: Result<ComponentPath, ComponentsError>)
    ensures Extend(r, []) == r
  {
    if r.Ok? {
      assert r.value + [] == r.value;
    }
  }

  lemma ExtendTwice(r: Result<ComponentPath, ComponentsError>, a: ComponentPath, b: ComponentPath)
    ensures Extend(Extend(r, a), b) == Extend(r, a + b)
  {
    if r.Ok? {
      assert r.value + a + b == r.value + (a + b);
    }
  }

  // ---------------------------------------------------------------------------
  // The two walks invert each other

  /** Walking up from a resolved component gives back the path that resolved it. */
  lemma {:induction false} PathOfResolve(comps: ComponentsTable, path: ComponentPath)
    requires ParentsCreatedFirst(comps)
    requires Resolve(comps, path).Some?
    ensures PathOf(comps, Child(Resolve(comps, path).value.id)) == Ok(path)
    decreases |path|
  {
    var root := RootComponent(comps).value;
    if path == [] {
    } else {
      var prefix, name := path[..|path| - 1], path[|path| - 1];
      assert path == prefix + [name];
      ResolveFromSnoc(comps, root, prefix, name);
      var above := Resolve(comps, prefix);
      assert above.Some?;
      PathOfResolve(comps, prefix);
      var d := Resolve(comps, path).value;
      assert d == ComponentInParent(comps, Some((above.value.id, name))).value;
      assert comps[d.id].value.componentType == ChildComponent(above.value.id, name);
    }
  }

  /** Resolving the path of a stored component finds that component, provided
      index keys are unique (one root, sibling names distinct). */
  lemma {:induction false} ResolvePathOf(comps: ComponentsTable, id: InternalId)
    requires ParentsCreatedFirst(comps) && UniqueIndexKeys(comps)
    requires PathOf(comps, Child(id)).Ok?
    ensures id in comps
    ensures Resolve(comps, PathOf(comps, Child(id)).value) == Some(ParsedAt(comps, id))
    decreases Rank(comps, Child(id))
  {
    match comps[id].value.componentType
    case App =>
      ComponentInParentIsUnique(comps, None, id);
    case ChildComponent(parent, name) =>
      var above := PathOf(comps, Child(parent));
      assert above.Ok?;
      ResolvePathOf(comps, parent);
      var root := RootComponent(comps).value;
      ResolveFromSnoc(comps, root, above.value, name);
      ComponentInParentIsUnique(comps, Some((parent, name)), id);
  }

  /** The one-level tree of the module's own test: a root and its child
      "subcomponent_child" resolve to each other. */
  lemma OneLevelTreeRoundTrip()
    ensures
      var comps: ComponentsTable := map[
        1 := Stored(10, ComponentMetadata(100, App)),
        2 := Stored(11, ComponentMetadata(101, ChildComponent(1, "subcomponent_child")))];
      && Resolve(comps, ["subcomponent_child"]) == Some(Parsed(2, 11, ComponentMetadata(101, ChildComponent(1, "subcomponent_child"))))
      && PathOf(comps, Child(2)) == Ok(["subcomponent_child"])
  {
    var comps: ComponentsTable := map[
      1 := Stored(10, ComponentMetadata(100, App)),
      2 := Stored(11, ComponentMetadata(101, ChildComponent(1, "subcomponent_child")))];
    ComponentInParentIsUnique(comps, None, 1);
    ComponentInParentIsUnique(comps, Some((1, "subcomponent_child")), 2);
    assert PathOf(comps, Child(1)) == Ok([]);
    assert [] + ["subcomponent_child"] == ["subcomponent_child"];
  }

  // ---------------------------------------------------------------------------
  // Definitions and point loads

  /** `component_definition`: the root's definition is the well-known root
      definition, read without a lookup; a child's is read off its record. */
  function ComponentDefinition(comps: ComponentsTable, cid: ComponentId): (r: Result<ComponentDefinitionId, ComponentsError>)
    ensures cid.Root? ==> r == Ok(RootDefinition)
    ensures cid.Child? ==> (r.Ok? <==> cid.internalId in comps)
    ensures cid.Child? && r.Ok? ==> r.value == ChildDefinition(comps[cid.internalId].value.definitionId)
    ensures r.Err? ==> r.error == ComponentMissing(cid.internalId)
  {
    match cid
    case Root => Ok(RootDefinition)
    case Child(id) =>
      if id !in comps then Err(ComponentMissing(id))
      else Ok(ChildDefinition(comps[id].value.definitionId))
  }

  /** `load_component`: the root through the index, a child by id. */
  function LoadComponent(comps: ComponentsTable, cid: ComponentId): (r: Option<ComponentDoc>)
    ensures cid.Root? ==> r == RootComponent(comps)
    ensures cid.Child? ==> (r.Some? <==> cid.internalId in comps)
    ensures cid.Child? && r.Some? ==> r.value == ParsedAt(comps, cid.internalId)
  {
    match cid
    case Root => RootComponent(comps)
    case Child(id) => if id in comps then Some(ParsedAt(comps, id)) else None
  }

  /** `load_definition`: the root definition is the one the root component
      names; a missing root component or definition record is an error. */
  function LoadDefinition(comps: ComponentsTable, defs: DefinitionsTable, did: ComponentDefinitionId): (r: Result<DefinitionDoc, ComponentsError>)
    ensures did.RootDefinition? && RootComponent(comps).None? ==> r == Err(MissingRootComponent)
    ensures r.Ok? ==> r.value.id in defs && r.value == ParsedAt(defs, r.value.id)
    ensures r.Ok? && did.ChildDefinition? ==> r.value.id == did.internalId
    ensures r.Ok? && did.RootDefinition? ==> r.value.id == RootComponent(comps).value.value.definitionId
    ensures did.ChildDefinition? ==> (r.Ok? <==> did.internalId in defs)
    ensures did.RootDefinition? && RootComponent(comps).Some? ==> (r.Ok? <==> RootComponent(comps).value.value.definitionId in defs)
    ensures r.Err? && !(did.RootDefinition? && RootComponent(comps).None?) ==> r.error.MissingComponentDefinition?
  {
    var internal :=
      match did
      case RootDefinition =>
        (match RootComponent(comps)
         case None => Err(MissingRootComponent)
         case Some(root) => Ok(root.value.definitionId))
      case ChildDefinition(id) => Ok(id);
    match internal
    case Err(e) => Err(e)
    case Ok(id) => if id in defs then Ok(ParsedAt(defs, id)) else Err(MissingComponentDefinition(id))
  }

  /** The definition of a stored component is the record its `definition_id`
      names, whichever of the two routes reaches it. */
  lemma LoadDefinitionOfComponent(comps: ComponentsTable, defs: DefinitionsTable, id: InternalId)
    requires UniqueIndexKeys(comps)
    requires id in comps
    ensures ComponentDefinition(comps, Child(id)).Ok?
    ensures comps[id].value.componentType.App? ==>
      LoadDefinition(comps, defs, RootDefinition) == LoadDefinition(comps, defs, ComponentDefinition(comps, Child(id)).value)
  {
    if comps[id].value.componentType.App? {
      ComponentInParentIsUnique(comps, None, id);
    }
  }

  // ---------------------------------------------------------------------------
  // Full-table loads

  /** `load_all_components`: every component, in the order of a full table
      scan, which the model takes to be ascending id. */
  method LoadAllComponents(tx: Transaction) returns (docs: seq<ComponentDoc>)
    ensures |docs| == |tx.components|
    ensures forall i :: 0 <= i < |docs| ==> docs[i].id in tx.components && docs[i] == ParsedAt(tx.components, docs[i].id)
    ensures forall id :: id in tx.components ==> ParsedAt(tx.components, id) in docs
    ensures forall i, j :: 0 <= i < j < |docs| ==> docs[i].id < docs[j].id
  {
    var comps := tx.components;
    var ids := Ascending(comps.Keys);
    docs := [];
    for i := 0 to |ids|
      invariant |docs| == i
      invariant forall k :: 0 <= k < i ==> docs[k] == ParsedAt(comps, ids[k])
    {
      docs := docs + [ParsedAt(comps, ids[i])];
    }
    forall id | id in comps
      ensures ParsedAt(comps, id) in docs
    {
      AscendingHas(comps.Keys, id);
      var k :| 0 <= k < |ids| && ids[k] == id;
      assert docs[k] == ParsedAt(comps, id);
    }
  }

  /** No two definitions share a path. */
  ghost predicate DefinitionPathsUnique(defs: DefinitionsTable)
  {
    forall a, b :: a in defs && b in defs && a != b ==> defs[a].value.path != defs[b].value.path
  }

  /** `load_all_definitions`: scans the definitions and keys them by path,
      failing as soon as a path is already taken. */
  method LoadAllDefinitions(tx: Transaction) returns (r: Result<map<ComponentDefinitionPath, DefinitionDoc>, ComponentsError>)
    ensures r.Ok? <==> DefinitionPathsUnique(tx.definitions)
    ensures r.Err? ==> r.error == DuplicateDefinitionPath
    ensures r.Ok? ==> forall id :: id in tx.definitions ==>
      tx.definitions[id].value.path in r.value && r.value[tx.definitions[id].value.path] == ParsedAt(tx.definitions, id)
    ensures r.Ok? ==> forall p :: p in r.value ==>
      r.value[p].id in tx.definitions && r.value[p] == ParsedAt(tx.definitions, r.value[p].id) && r.value[p].value.path == p
  {
    var defs := tx.definitions;
    var definitions: map<ComponentDefinitionPath, DefinitionDoc> := map[];
    // Definitions are scanned in ascending id, the scan order the model assumes.
    var remaining := defs.Keys;
    while remaining != {}
      invariant remaining <= defs.Keys
      invariant forall id :: id in defs && id !in remaining ==>
        defs[id].value.path in definitions && definitions[defs[id].value.path] == ParsedAt(defs, id)
      invariant forall p :: p in definitions ==>
        && definitions[p].id in defs && definitions[p].id !in remaining
        && definitions[p] == ParsedAt(defs, definitions[p].id) && definitions[p].value.path == p
      decreases |remaining|
    {
      var id := SetMin(remaining);
      var definition := ParsedAt(defs, id);
      if definition.value.path in definitions {
        var other := definitions[definition.value.path].id;
        assert other != id && defs[other].value.path == defs[id].value.path;
        return Err(DuplicateDefinitionPath);
      }
      definitions := definitions[definition.value.path := definition];
      remaining := remaining - {id};
    }
    return Ok(definitions);
  }

  // ---------------------------------------------------------------------------
  // Function paths to module paths

  /** `function_path_to_module`: the root path maps to the root definition
      without walking the tree; any other path to the definition of the
      component it resolves to. The module path is kept as it is. */
  function FunctionPathToModule(comps: ComponentsTable, path: CanonicalizedComponentFunctionPath): (r: Result<CanonicalizedComponentModulePath, ComponentsError>)
    ensures r.Ok? ==> r.value.modulePath == path.udfPath.modulePath
    ensures path.component == [] ==> r == Ok(CanonicalizedComponentModulePath(RootDefinition, path.udfPath.modulePath))
    ensures path.component != [] ==> (r.Ok? <==> Resolve(comps, path.component).Some?)
    ensures r.Err? ==> r.error == ComponentNotFound
  {
    if path.component == [] then
      Ok(CanonicalizedComponentModulePath(RootDefinition, path.udfPath.modulePath))
    else
      match Resolve(comps, path.component)
      case None => Err(ComponentNotFound)
      case Some(componentDoc) =>
        Ok(CanonicalizedComponentModulePath(ChildDefinition(componentDoc.value.definitionId), path.udfPath.modulePath))
  }

  /** For a path below the root, the module's definition is the one
      `component_definition` gives for the component the path resolves to. */
  lemma FunctionPathToModuleAgreesWithComponentDefinition(comps: ComponentsTable, path: CanonicalizedComponentFunctionPath)
    requires path.component != []
    requires FunctionPathToModule(comps, path).Ok?
    ensures Resolve(comps, path.component).Some?
    ensures Ok(FunctionPathToModule(comps, path).value.component) ==
      ComponentDefinition(comps, Child(Resolve(comps, path.component).value.id))
  {
  }
}
