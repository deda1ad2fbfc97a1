/** The transaction every model operation reads and writes through. The
    indexed store, the virtual-table adapter and the retention validator are
    collaborators: their state is reduced to the fields below, and their
    answers to function-valued constants. */
module Transactions {
  import opened Common
  import opened ComponentTypes
  import opened DatabaseTypes

  /** One entry of the read log: table, document size, whether the table is virtual. */
  datatype ReadRecord = ReadRecord(table: TableName, size: nat, isVirtual: bool)

  /** One entry of the write log, in the order the writes were made. */
  datatype WriteRecord =
    | TableCreated(name: TableName, number: TableNumber)
    | DocumentInserted(id: DocumentId)
    | DocumentPatched(id: DocumentId)
    | DocumentReplaced(id: DocumentId)
    | DocumentDeleted(id: DocumentId)

  type FetchResult = Result<Option<(Document, WriteTimestamp)>, Error>
  type RangeResult = Result<(Page, CursorPosition), Error>

  ghost predicate TablesValid(tables: map<TableName, TableNumber>, virtualTables: map<TableNumber, TableName>)
  {
    && (forall a, b :: a in tables && b in tables && a != b ==> tables[a] != tables[b])
    && (forall a :: a in tables ==> tables[a] !in virtualTables)
  }

  ghost predicate DocumentsValid(tables: map<TableName, TableNumber>, documents: map<DocumentId, Versioned>, nextCreationTime: nat)
  {
    forall id :: id in documents ==>
      && documents[id].document.id == id
      && id.table in tables.Values
      && documents[id].document.creationTime < nextCreationTime
  }

  class Transaction {
    const identity: Identity

    /** The global `_components` and `_component_definitions` tables. */
    var components: map<InternalId, Stored<ComponentMetadata>>
    var definitions: map<InternalId, Stored<ComponentDefinitionMetadata>>

    /** Physical table mapping of the namespace: name to table number. */
    var tables: map<TableName, TableNumber>
    /** Virtual table mapping of the namespace: table number to virtual table name. */
    const virtualTables: map<TableNumber, TableName>
    /** The names the virtual system mapping declares virtual, in any namespace. */
    const virtualTableNames: set<TableName>

    /** Documents of the physical tables as this transaction sees them. */
    var documents: map<DocumentId, Versioned>

    /** The creation time the next inserted document receives. */
    var nextCreationTime: nat

    /** The retention validator's verdict: garbage collection is falling behind. */
    const retentionFallingBehind: bool

    var readLog: seq<ReadRecord>
    var writeLog: seq<WriteRecord>

    /** The user document-size ceiling and the largest page an index scan returns. */
    const maxUserSize: nat
    const maxPageSize: nat

    /** The virtual-table adapter's point read and index scan. */
    const virtualGet: (DocumentId, Option<Version>) -> FetchResult
    const virtualIndexRange: (RangeRequest, string, Option<Version>) -> RangeResult
    /** The physical index's scan. */
    const indexRange: RangeRequest -> RangeResult

    /** `tx.is_system(table_number)`, as the model assumes it: the number names
        a physical table whose name marks it as a system table. A virtual
        table's number is never a system table here. */
    predicate IsSystemTable(n: TableNumber)
      reads this`tables
    {
      exists name :: name in tables && tables[name] == n && IsSystemTableName(name)
    }

    /** `table_number_exists`: the number names a physical table. */
    predicate TableNumberExists(n: TableNumber)
      reads this`tables
    {
      n in tables.Values
    }

    /** `virtual_system_mapping().is_virtual_table(name)`: a question about the
        name alone, independent of the namespace's number mapping. */
    predicate IsVirtualTableName(name: TableName)
    {
      name in virtualTableNames
    }

    /** Table numbers name one table each, physical numbers are not virtual,
        and every document is stored under its own id, in a mapped table, with
        a creation time the counter has passed. */
    ghost predicate Valid()
      reads this`tables, this`documents, this`nextCreationTime
    {
      && TablesValid(tables, virtualTables)
      && DocumentsValid(tables, documents, nextCreationTime)
    }

    /** A transaction begun on a snapshot, with empty read and write logs. */
    constructor (
      identity: Identity,
      components: map<InternalId, Stored<ComponentMetadata>>,
      definitions: map<InternalId, Stored<ComponentDefinitionMetadata>>,
      tables: map<TableName, TableNumber>,
      virtualTables: map<TableNumber, TableName>,
      virtualTableNames: set<TableName>,
      documents: map<DocumentId, Versioned>,
      nextCreationTime: nat,
      retentionFallingBehind: bool,
      maxUserSize: nat,
      maxPageSize: nat,
      virtualGet: (DocumentId, Option<Version>) -> FetchResult,
      virtualIndexRange: (RangeRequest, string, Option<Version>) -> RangeResult,
      indexRange: RangeRequest -> RangeResult)
      requires TablesValid(tables, virtualTables)
      requires DocumentsValid(tables, documents, nextCreationTime)
      ensures Valid()
      ensures this.identity == identity && this.components == components && this.definitions == definitions
      ensures this.tables == tables && this.virtualTables == virtualTables
      ensures this.virtualTableNames == virtualTableNames && this.documents == documents
      ensures this.nextCreationTime == nextCreationTime && this.retentionFallingBehind == retentionFallingBehind
      ensures this.maxUserSize == maxUserSize && this.maxPageSize == maxPageSize
      ensures this.virtualGet == virtualGet && this.virtualIndexRange == virtualIndexRange
      ensures this.indexRange == indexRange
      ensures this.readLog == [] && this.writeLog == []
    {
      this.identity := identity;
      this.components := components;
      this.definitions := definitions;
      this.tables := tables;
      this.virtualTables := virtualTables;
      this.virtualTableNames := virtualTableNames;
      this.documents := documents;
      this.nextCreationTime := nextCreationTime;
      this.retentionFallingBehind := retentionFallingBehind;
      this.maxUserSize := maxUserSize;
      this.maxPageSize := maxPageSize;
      this.virtualGet := virtualGet;
      this.virtualIndexRange := virtualIndexRange;
      this.indexRange := indexRange;
      this.readLog := [];
      this.writeLog := [];
    }
  }
}
