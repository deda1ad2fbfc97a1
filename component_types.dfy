/** The records of the `_components` and `_component_definitions` system
    tables and the identifiers used to address components. */
module ComponentTypes {

  /** Internal document identifier within a table. The model assumes that
      scans yield rows in ascending internal id, ties on index fields broken
      by it. */
  type InternalId = nat

  type ComponentName = string

  /** Static path of a component definition (e.g. "../app/child"). */
  type ComponentDefinitionPath = string

  /** Names from the root of the tree down to a component; empty for the root. */
  type ComponentPath = seq<ComponentName>

  /** The root (`App`) has no parent; every other component names its parent and
      its own name among that parent's children. Instantiation arguments are not
      modelled. */
  datatype ComponentType =
    | App
    | ChildComponent(parent: InternalId, name: ComponentName)

  datatype ComponentMetadata = ComponentMetadata(definitionId: InternalId, componentType: ComponentType)

  datatype ComponentId = Root | Child(internalId: InternalId)

  datatype ComponentDefinitionId = RootDefinition | ChildDefinition(internalId: InternalId)

  /** Declared child instantiations and exports are not modelled. */
  datatype ComponentDefinitionType = AppDefinition | ChildComponentDefinition(name: ComponentName)

  datatype ComponentDefinitionMetadata =
    ComponentDefinitionMetadata(path: ComponentDefinitionPath, definitionType: ComponentDefinitionType)

  /** A stored row: its system creation time and its parsed value. */
  datatype Stored<T> = Stored(creationTime: nat, value: T)

  /** A parsed document as a lookup returns it: id, creation time, value. */
  datatype Parsed<T> = Parsed(id: InternalId, creationTime: nat, value: T)

  /** The parsed document stored under `id`. */
  function ParsedAt<T>(table: map<InternalId, Stored<T>>, id: InternalId): (d: Parsed<T>)
    requires id in table
    ensures d.id == id && d.value == table[id].value && d.creationTime == table[id].creationTime
  {
    Parsed(id, table[id].creationTime, table[id].value)
  }

  /** A module path inside a component definition, and a function in it. */
  datatype UdfPath = UdfPath(modulePath: string, functionName: string)
}
