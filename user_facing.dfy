/** The user-facing document model: point and batch reads by developer id,
    guarded inserts, patches, replacements and deletions, and index scans, all
    made through one transaction. */
module UserFacing {
  import opened Common
  import opened DatabaseTypes
  import opened Transactions

  // ---------------------------------------------------------------------------
  // Batch reads
  // ---------------------------------------------------------------------------

  type BatchRequest = map<BatchKey, (DocumentId, Option<Version>)>

  /** The store's point fetch: `failing` stands for the ids whose fetch fails
      with an I/O error. */
  function Fetch(documents: map<DocumentId, Versioned>, failing: set<DocumentId>, id: DocumentId): (r: FetchResult)
    ensures r.Err? <==> id in failing
    ensures r.Ok? && r.value.Some? ==> id in documents && r.value.value.0 == documents[id].document
    ensures r.Ok? && r.value.None? ==> id !in documents
  {
    if id in failing then Err(FetchFailed(id))
    else if id in documents then Ok(Some((documents[id].document, documents[id].ts)))
    else Ok(None)
  }

  /** What a batch read yields for one entry, on its own: a virtual table's id
      is answered by the virtual-table adapter, an id of an unknown table by
      `None`, and any other id by the store. */
  function EntryResult(tx: Transaction, failing: set<DocumentId>, id: DocumentId, version: Option<Version>): FetchResult
    reads tx`tables, tx`documents
  {
    if id.table in tx.virtualTables then tx.virtualGet(id, version)
    else if !tx.TableNumberExists(id.table) then Ok(None)
    else Fetch(tx.documents, failing, id)
  }

  /** The read a batch entry records itself: only a virtual-table hit. */
  function VirtualRead(tx: Transaction, id: DocumentId, version: Option<Version>): (r: seq<ReadRecord>)
    ensures |r| <= 1
    ensures r != [] ==> r[0].isVirtual && id.table in tx.virtualTables && r[0].table == tx.virtualTables[id.table]
    ensures r != [] <==> id.table in tx.virtualTables && tx.virtualGet(id, version).Ok? && tx.virtualGet(id, version).value.Some?
  {
    if id.table in tx.virtualTables then
      var fetched := tx.virtualGet(id, version);
      if fetched.Ok? && fetched.value.Some? then
        [ReadRecord(tx.virtualTables[id.table], DocumentSize(fetched.value.value.0), true)]
      else []
    else []
  }

  /** The reads a batch records for the entries under `keys`, in ascending
      key order. */
  function VirtualReads(tx: Transaction, ids: BatchRequest, keys: set<BatchKey>): (r: seq<ReadRecord>)
    requires keys <= ids.Keys
    decreases |keys|
  {
    if keys == {} then []
    else
      var first := SetMin(keys);
      VirtualRead(tx, ids[first].0, ids[first].1) + VirtualReads(tx, ids, keys - {first})
  }

  /** Whether stage 1 hands an entry's id to the store: it names a physical
      table that is not virtual. */
  predicate Staged(tx: Transaction, id: DocumentId)
    reads tx`tables
  {
    id.table !in tx.virtualTables && tx.TableNumberExists(id.table)
  }

  /** Stage 1 for one entry: a virtual id is answered by the adapter and a hit
      recorded as a virtual read; an id of an unknown table is answered with
      `None`; any other id is left for the store. */
  method ResolveEntry(tx: Transaction, id: DocumentId, version: Option<Version>, failing: set<DocumentId>)
    returns (resolved: Option<FetchResult>)
    modifies tx`readLog
    ensures resolved.None? <==> Staged(tx, id)
    ensures resolved.Some? ==> resolved.value == EntryResult(tx, failing, id, version)
    ensures tx.readLog == old(tx.readLog) + VirtualRead(tx, id, version)
  {
    if id.table in tx.virtualTables {
      var fetched := tx.virtualGet(id, version);
      if fetched.Ok? && fetched.value.Some? {
        tx.readLog := tx.readLog + [ReadRecord(tx.virtualTables[id.table], DocumentSize(fetched.value.value.0), true)];
      }
      return Some(fetched);
    }
    if !tx.TableNumberExists(id.table) {
      return Some(Ok(None));
    }
    return None;
  }

  /** A batch records at most one read per entry, and every read it records
      is a virtual-table read: physical hits are left to the store. */
  lemma {:induction false} VirtualReadsAreVirtual(tx: Transaction, ids: BatchRequest, keys: set<BatchKey>)
    requires keys <= ids.Keys
    ensures |VirtualReads(tx, ids, keys)| <= |keys|
    ensures forall i :: 0 <= i < |VirtualReads(tx, ids, keys)| ==> VirtualReads(tx, ids, keys)[i].isVirtual
    decreases |keys|
  {
    if keys != {} {
      var first := SetMin(keys);
      VirtualReadsAreVirtual(tx, ids, keys - {first});
    }
  }

  /** Unfolds the reads of a batch by one entry, the first in key order. */
  lemma VirtualReadsFirst(tx: Transaction, ids: BatchRequest, keys: set<BatchKey>)
    requires keys != {} && keys <= ids.Keys
    ensures VirtualReads(tx, ids, keys)
         == VirtualRead(tx, ids[SetMin(keys)].0, ids[SetMin(keys)].1) + VirtualReads(tx, ids, keys - {SetMin(keys)})
  {
  }

  /** In a valid transaction a physical hit is the document under the
      requested id: the store never answers with another document. */
  lemma EntryResultIsRequested(tx: Transaction, failing: set<DocumentId>, id: DocumentId, version: Option<Version>)
    requires tx.Valid()
    ensures var r := EntryResult(tx, failing, id, version);
      id.table !in tx.virtualTables && r.Ok? && r.value.Some? ==> r.value.value.0.id == id
  {
  }

  /** Concatenation is associative. */
  lemma AppendAssoc<T>(a: seq<T>, b: seq<T>, c: seq<T>)
    ensures (a + b) + c == a + (b + c)
  {
  }

  /** Stage 1 of `get_batch`: resolves every entry in ascending key order,
      keeping the answered ones and staging the rest for the store. */
  method ResolveBatch(tx: Transaction, ids: BatchRequest, failing: set<DocumentId>)
    returns (results: map<BatchKey, FetchResult>, toFetch: map<BatchKey, DocumentId>)
    modifies tx`readLog
    ensures forall k :: k in results <==> k in ids && !Staged(tx, ids[k].0)
    ensures forall k :: k in toFetch <==> k in ids && Staged(tx, ids[k].0)
    ensures forall k :: k in toFetch ==> toFetch[k] == ids[k].0
    ensures forall k :: k in results ==> results[k] == EntryResult(tx, failing, ids[k].0, ids[k].1)
    ensures tx.readLog == old(tx.readLog) + VirtualReads(tx, ids, ids.Keys)
  {
    results := map[];
    toFetch := map[];
    var remaining := ids.Keys;
    ghost var recorded: seq<ReadRecord> := [];
    while remaining != {}
      invariant remaining <= ids.Keys
      invariant forall k :: k in results <==> k in ids && k !in remaining && !old(Staged(tx, ids[k].0))
      invariant forall k :: k in toFetch <==> k in ids && k !in remaining && old(Staged(tx, ids[k].0))
      invariant forall k :: k in toFetch ==> toFetch[k] == ids[k].0
      invariant forall k :: k in results ==> results[k] == old(EntryResult(tx, failing, ids[k].0, ids[k].1))
      invariant tx.readLog == old(tx.readLog) + recorded
      invariant recorded + VirtualReads(tx, ids, remaining) == VirtualReads(tx, ids, ids.Keys)
      decreases |remaining|
    {
      var key := SetMin(remaining);
      var (id, version) := ids[key];
      var resolved := ResolveEntry(tx, id, version, failing);
      VirtualReadsFirst(tx, ids, remaining);
      AppendAssoc(recorded, VirtualRead(tx, id, version), VirtualReads(tx, ids, remaining - {key}));
      AppendAssoc(old(tx.readLog), recorded, VirtualRead(tx, id, version));
      recorded := recorded + VirtualRead(tx, id, version);
      if resolved.Some? {
        results := results[key := resolved.value];
      } else {
        toFetch := toFetch[key := id];
      }
      remaining := remaining - {key};
    }
  }

  /** Stage 2 of `get_batch`: the store's batch fetch, one result per staged key. */
  function FetchBatch(documents: map<DocumentId, Versioned>, failing: set<DocumentId>, toFetch: map<BatchKey, DocumentId>)
    : (r: map<BatchKey, FetchResult>)
    ensures r.Keys == toFetch.Keys
    ensures forall k :: k in r ==> r[k] == Fetch(documents, failing, toFetch[k])
  {
    map k | k in toFetch :: Fetch(documents, failing, toFetch[k])
  }

  /** Stage 3 of `get_batch`: adds every fetched result under its own key; no
      key is answered twice. */
  method MaterializeBatch(results: map<BatchKey, FetchResult>, fetched: map<BatchKey, FetchResult>)
    returns (merged: map<BatchKey, FetchResult>)
    requires forall k :: k in results ==> k !in fetched
    ensures forall k :: k in merged <==> k in results || k in fetched
    ensures forall k :: k in results ==> merged[k] == results[k]
    ensures forall k :: k in fetched ==> merged[k] == fetched[k]
  {
    merged := results;
    var remaining := fetched.Keys;
    while remaining != {}
      invariant remaining <= fetched.Keys
      invariant forall k :: k in merged <==> k in results || (k in fetched && k !in remaining)
      invariant forall k :: k in results ==> merged[k] == results[k]
      invariant forall k :: k in fetched && k !in remaining ==> merged[k] == fetched[k]
      decreases |remaining|
    {
      var key := SetMin(remaining);
      assert key !in merged;
      merged := merged[key := fetched[key]];
      remaining := remaining - {key};
    }
  }

  /** `get_batch`: exactly one result per batch key, each entry computed on its
      own, and a read recorded for each virtual-table hit in key order. */
  method GetBatch(tx: Transaction, ids: BatchRequest, failing: set<DocumentId>)
    returns (results: map<BatchKey, FetchResult>)
    modifies tx`readLog
    ensures results.Keys == ids.Keys
    ensures forall k :: k in ids ==> results[k] == EntryResult(tx, failing, ids[k].0, ids[k].1)
    ensures tx.readLog == old(tx.readLog) + VirtualReads(tx, ids, ids.Keys)
    // A physical hit is the document that was asked for.
    ensures tx.Valid() ==> forall k :: k in ids && ids[k].0.table !in tx.virtualTables && results[k].Ok? && results[k].value.Some? ==>
      results[k].value.value.0.id == ids[k].0
  {
    var resolved, toFetch := ResolveBatch(tx, ids, failing);
    var fetched := FetchBatch(tx.documents, failing, toFetch);
    results := MaterializeBatch(resolved, fetched);
  }

  /** `get_with_ts`: the result for key 0 of a one-entry batch. */
  method GetWithTs(tx: Transaction, id: DocumentId, version: Option<Version>, failing: set<DocumentId>)
    returns (r: FetchResult)
    modifies tx`readLog
    ensures r == EntryResult(tx, failing, id, version)
    ensures tx.readLog == old(tx.readLog) + VirtualRead(tx, id, version)
    ensures tx.Valid() && id.table !in tx.virtualTables && r.Ok? && r.value.Some? ==> r.value.value.0.id == id
  {
    var batch := GetBatch(tx, map[0 := (id, version)], failing);
    assert 0 in batch.Keys;
    r := batch[0];
    assert VirtualReads(tx, map[0 := (id, version)], {0}) == VirtualRead(tx, id, version) + VirtualReads(tx, map[0 := (id, version)], {});
  }

  /** `get`: `get_with_ts` without the timestamp. */
  method Get(tx: Transaction, id: DocumentId, version: Option<Version>, failing: set<DocumentId>)
    returns (r: Result<Option<Document>, Error>)
    modifies tx`readLog
    ensures var e := EntryResult(tx, failing, id, version);
      && (r.Err? <==> e.Err?)
      && (e.Err? ==> r.error == e.error)
      && (e.Ok? ==> r.Ok? && (r.value.Some? <==> e.value.Some?) && (e.value.Some? ==> r.value.value == e.value.value.0))
    ensures tx.readLog == old(tx.readLog) + VirtualRead(tx, id, version)
  {
    var withTs := GetWithTs(tx, id, version, failing);
    match withTs
    case Err(e) => r := Err(e);
    case Ok(None) => r := Ok(None);
    case Ok(Some((document, _))) => r := Ok(Some(document));
  }

  // ---------------------------------------------------------------------------
  // Guarded mutations
  // ---------------------------------------------------------------------------

  /** A system table may be written only by an admin or a system identity. */
  predicate WriteDenied(tx: Transaction, table: TableNumber)
    reads tx`tables
  {
    tx.IsSystemTable(table) && !(IsAdmin(tx.identity) || IsSystemIdentity(tx.identity))
  }

  /** The checks `insert` makes before it touches any state: the table is not
      virtual, the value fits the user size ceiling, retention keeps up. */
  predicate InsertAdmitted(tx: Transaction, table: TableName, value: ConvexObject)
  {
    !tx.IsVirtualTableName(table) && ObjectSize(value) <= tx.maxUserSize && !tx.retentionFallingBehind
  }

  /** The table number the table model allocates for a table it has to create
      is not in use. */
  predicate NumberAvailable(tables: map<TableName, TableNumber>, virtualTables: map<TableNumber, TableName>,
                            table: TableName, n: TableNumber)
  {
    table !in tables ==> n !in tables.Values && n !in virtualTables
  }

  /** `insert`: guards first (read-only virtual table, user size ceiling,
      retention), then the creation-time counter, then the reserved-prefix
      check, then the table metadata and only then the document.
      `generatedId` is the id generator's draw and `newTableNumber` the number
      the table model allocates if the table does not exist yet. */
  method Insert(tx: Transaction, table: TableName, value: ConvexObject, generatedId: nat, newTableNumber: TableNumber)
    returns (r: Result<DocumentId, Error>)
    modifies tx
    ensures unchanged(tx`components, tx`definitions, tx`readLog)
    ensures tx.IsVirtualTableName(table) ==> r == Err(ReadOnlyTable(table)) && unchanged(tx)
    ensures !tx.IsVirtualTableName(table) && ObjectSize(value) > tx.maxUserSize ==>
      r == Err(DocumentTooLarge(ObjectSize(value), tx.maxUserSize)) && unchanged(tx)
    ensures !tx.IsVirtualTableName(table) && ObjectSize(value) <= tx.maxUserSize && tx.retentionFallingBehind ==>
      r == Err(RetentionFallingBehind) && unchanged(tx)
    ensures InsertAdmitted(tx, table, value) ==> tx.nextCreationTime == old(tx.nextCreationTime) + 1
    ensures InsertAdmitted(tx, table, value) && IsSystemTableName(table) ==>
      r == Err(InvalidTableName(table)) && unchanged(tx`tables, tx`documents, tx`writeLog)
    ensures InsertAdmitted(tx, table, value) && !IsSystemTableName(table) ==>
      && table in tx.tables
      && tx.tables == (if table in old(tx.tables) then old(tx.tables) else old(tx.tables)[table := newTableNumber])
      && var id := DocumentId(tx.tables[table], generatedId);
         var metadata := if table in old(tx.tables) then [] else [TableCreated(table, newTableNumber)];
         if id in old(tx.documents) then
           && r == Err(DocumentAlreadyExists(id))
           && tx.documents == old(tx.documents)
           && tx.writeLog == old(tx.writeLog) + metadata
         else
           && r == Ok(id)
           && tx.documents == old(tx.documents)[id := Versioned(Document(id, old(tx.nextCreationTime), value), Pending)]
           && tx.writeLog == old(tx.writeLog) + metadata + [DocumentInserted(id)]
    ensures old(tx.Valid()) && NumberAvailable(old(tx.tables), tx.virtualTables, table, newTableNumber) ==> tx.Valid()
    // The first document of a table the insert creates cannot collide.
    ensures && old(tx.Valid()) && NumberAvailable(old(tx.tables), tx.virtualTables, table, newTableNumber)
            && InsertAdmitted(tx, table, value) && !IsSystemTableName(table) && table !in old(tx.tables) ==>
      r == Ok(DocumentId(newTableNumber, generatedId))
  {
    if tx.IsVirtualTableName(table) {
      return Err(ReadOnlyTable(table));
    }
    var tooLarge := CheckUserSize(ObjectSize(value), tx.maxUserSize);
    if tooLarge.Some? {
      return Err(tooLarge.value);
    }
    if tx.retentionFallingBehind {
      return Err(RetentionFallingBehind);
    }
    var creationTime := tx.nextCreationTime;
    tx.nextCreationTime := tx.nextCreationTime + 1;
    if IsSystemTableName(table) {
      return Err(InvalidTableName(table));
    }
    // The table metadata is written first: a failure below leaves at worst a
    // table with no documents, never a document in a table with no metadata.
    if table !in tx.tables {
      ghost var before := tx.tables;
      tx.tables := tx.tables[table := newTableNumber];
      tx.writeLog := tx.writeLog + [TableCreated(table, newTableNumber)];
      forall v | v in before.Values
        ensures v in tx.tables.Values
      {
        var a :| a in before && before[a] == v;
        assert tx.tables[a] == v;
      }
    }
    var id := DocumentId(tx.tables[table], generatedId);
    if id in tx.documents {
      return Err(DocumentAlreadyExists(id));
    }
    tx.documents := tx.documents[id := Versioned(Document(id, creationTime, value), Pending)];
    tx.writeLog := tx.writeLog + [DocumentInserted(id)];
    r := Ok(id);
  }

  /** `patch`: authorization, retention and table lookup come first; the merge
      overwrites the patched fields; the size ceiling is checked on the merged
      document, for non-system tables only, after it has been written. */
  method Patch(tx: Transaction, id: DocumentId, value: PatchValue) returns (r: Result<Document, Error>)
    modifies tx
    ensures unchanged(tx`components, tx`definitions, tx`tables, tx`nextCreationTime, tx`readLog)
    ensures WriteDenied(tx, id.table) ==> r == Err(Unauthorized("patch")) && unchanged(tx)
    ensures !WriteDenied(tx, id.table) && tx.retentionFallingBehind ==> r == Err(RetentionFallingBehind) && unchanged(tx)
    ensures !WriteDenied(tx, id.table) && !tx.retentionFallingBehind && !tx.TableNumberExists(id.table) ==>
      r == Err(TableNotFound(id.table)) && unchanged(tx)
    ensures !WriteDenied(tx, id.table) && !tx.retentionFallingBehind && tx.TableNumberExists(id.table) ==>
      if id !in old(tx.documents) then r == Err(DocumentNotFound(id)) && unchanged(tx)
      else
        var before := old(tx.documents[id].document);
        var after := Document(id, before.creationTime, ConvexObject(ApplyPatch(before.value.fields, value.updates)));
        && tx.documents == old(tx.documents)[id := Versioned(after, Pending)]
        && tx.writeLog == old(tx.writeLog) + [DocumentPatched(id)]
        && r == (if !tx.IsSystemTable(id.table) && DocumentSize(after) > tx.maxUserSize
                 then Err(DocumentTooLarge(DocumentSize(after), tx.maxUserSize)) else Ok(after))
    ensures old(tx.Valid()) ==> tx.Valid()
  {
    if WriteDenied(tx, id.table) {
      return Err(Unauthorized("patch"));
    }
    if tx.retentionFallingBehind {
      return Err(RetentionFallingBehind);
    }
    if !tx.TableNumberExists(id.table) {
      return Err(TableNotFound(id.table));
    }
    if id !in tx.documents {
      return Err(DocumentNotFound(id));
    }
    var before := tx.documents[id].document;
    var after := Document(id, before.creationTime, ConvexObject(ApplyPatch(before.value.fields, value.updates)));
    tx.documents := tx.documents[id := Versioned(after, Pending)];
    tx.writeLog := tx.writeLog + [DocumentPatched(id)];
    if !tx.IsSystemTable(id.table) {
      var tooLarge := CheckUserSize(DocumentSize(after), tx.maxUserSize);
      if tooLarge.Some? {
        return Err(tooLarge.value);
      }
    }
    r := Ok(after);
  }

  /** `replace`: authorization, then the size ceiling on the new value for
      non-system tables, then retention and table lookup, and only then the
      write. */
  method Replace(tx: Transaction, id: DocumentId, value: ConvexObject) returns (r: Result<Document, Error>)
    modifies tx
    ensures unchanged(tx`components, tx`definitions, tx`tables, tx`nextCreationTime, tx`readLog)
    ensures WriteDenied(tx, id.table) ==> r == Err(Unauthorized("replace")) && unchanged(tx)
    ensures !WriteDenied(tx, id.table) && !tx.IsSystemTable(id.table) && ObjectSize(value) > tx.maxUserSize ==>
      r == Err(DocumentTooLarge(ObjectSize(value), tx.maxUserSize)) && unchanged(tx)
    ensures !WriteDenied(tx, id.table) && (tx.IsSystemTable(id.table) || ObjectSize(value) <= tx.maxUserSize) ==>
      if tx.retentionFallingBehind then r == Err(RetentionFallingBehind) && unchanged(tx)
      else if !tx.TableNumberExists(id.table) then r == Err(TableNotFound(id.table)) && unchanged(tx)
      else if id !in old(tx.documents) then r == Err(DocumentNotFound(id)) && unchanged(tx)
      else
        var after := Document(id, old(tx.documents[id].document.creationTime), value);
        && r == Ok(after)
        && tx.documents == old(tx.documents)[id := Versioned(after, Pending)]
        && tx.writeLog == old(tx.writeLog) + [DocumentReplaced(id)]
    ensures old(tx.Valid()) ==> tx.Valid()
  {
    if WriteDenied(tx, id.table) {
      return Err(Unauthorized("replace"));
    }
    if !tx.IsSystemTable(id.table) {
      var tooLarge := CheckUserSize(ObjectSize(value), tx.maxUserSize);
      if tooLarge.Some? {
        return Err(tooLarge.value);
      }
    }
    if tx.retentionFallingBehind {
      return Err(RetentionFallingBehind);
    }
    if !tx.TableNumberExists(id.table) {
      return Err(TableNotFound(id.table));
    }
    if id !in tx.documents {
      return Err(DocumentNotFound(id));
    }
    var after := Document(id, tx.documents[id].document.creationTime, value);
    tx.documents := tx.documents[id := Versioned(after, Pending)];
    tx.writeLog := tx.writeLog + [DocumentReplaced(id)];
    r := Ok(after);
  }

  /** `delete`: authorization, retention and table lookup, then the removal,
      returning the document as it was. */
  method Delete(tx: Transaction, id: DocumentId) returns (r: Result<Document, Error>)
    modifies tx
    ensures unchanged(tx`components, tx`definitions, tx`tables, tx`nextCreationTime, tx`readLog)
    ensures WriteDenied(tx, id.table) ==> r == Err(Unauthorized("delete")) && unchanged(tx)
    ensures !WriteDenied(tx, id.table) ==>
      if tx.retentionFallingBehind then r == Err(RetentionFallingBehind) && unchanged(tx)
      else if !tx.TableNumberExists(id.table) then r == Err(TableNotFound(id.table)) && unchanged(tx)
      else if id !in old(tx.documents) then r == Err(DocumentNotFound(id)) && unchanged(tx)
      else
        && r == Ok(old(tx.documents[id].document))
        && tx.documents == old(tx.documents) - {id}
        && tx.writeLog == old(tx.writeLog) + [DocumentDeleted(id)]
    ensures old(tx.Valid()) ==> tx.Valid()
  {
    if WriteDenied(tx, id.table) {
      return Err(Unauthorized("delete"));
    }
    if tx.retentionFallingBehind {
      return Err(RetentionFallingBehind);
    }
    if !tx.TableNumberExists(id.table) {
      return Err(TableNotFound(id.table));
    }
    if id !in tx.documents {
      return Err(DocumentNotFound(id));
    }
    var before := tx.documents[id].document;
    tx.documents := tx.documents - {id};
    tx.writeLog := tx.writeLog + [DocumentDeleted(id)];
    r := Ok(before);
  }

  /** `record_read_document`: one read, marked virtual exactly when the table
      is a virtual table. */
  method RecordReadDocument(tx: Transaction, document: Document, table: TableName)
    modifies tx`readLog
    ensures tx.readLog == old(tx.readLog) + [ReadRecord(table, DocumentSize(document), tx.IsVirtualTableName(table))]
  {
    tx.readLog := tx.readLog + [ReadRecord(table, DocumentSize(document), tx.IsVirtualTableName(table))];
  }

  // ---------------------------------------------------------------------------
  // Index scans
  // ---------------------------------------------------------------------------

  /** The request an index scan passes on, if it passes one on at all: none
      for an empty interval or a missing index; otherwise the page size is
      capped at the largest page. */
  function ScanRequest(tx: Transaction, index: StableIndexName, interval: Interval, order: Order, maxRows: nat)
    : (req: Option<RangeRequest>)
    ensures req.None? <==> IntervalIsEmpty(interval) || index.Missing?
    ensures req.Some? ==> req.value.maxSize <= maxRows && req.value.maxSize <= tx.maxPageSize
    ensures req.Some? ==> req.value.maxSize == maxRows || req.value.maxSize == tx.maxPageSize
    ensures req.Some? ==> req.value.interval == interval && req.value.order == order && req.value.index == index.tabletIndex
  {
    if IntervalIsEmpty(interval) || index.Missing? then None
    else
      var maxSize := if maxRows < tx.maxPageSize then maxRows else tx.maxPageSize;
      Some(RangeRequest(index.tabletIndex, interval, order, maxSize))
  }

  /** `index_range`: one page of an index scan. A physical index whose table
      is not in the table mapping fails; the physical page is returned as the
      index gives it. */
  function IndexRange(tx: Transaction, index: StableIndexName, interval: Interval, order: Order, maxRows: nat,
                      version: Option<Version>): (r: RangeResult)
    reads tx`tables
    ensures IntervalIsEmpty(interval) || index.Missing? ==> r == Ok(([], End))
    ensures !IntervalIsEmpty(interval) && index.Virtual? ==>
      r == tx.virtualIndexRange(ScanRequest(tx, index, interval, order, maxRows).value, index.indexName, version)
    ensures !IntervalIsEmpty(interval) && index.Physical? && !tx.TableNumberExists(index.tabletIndex.table) ==>
      r == Err(TableNotFound(index.tabletIndex.table))
    ensures !IntervalIsEmpty(interval) && index.Physical? && tx.TableNumberExists(index.tabletIndex.table) ==>
      r == tx.indexRange(ScanRequest(tx, index, interval, order, maxRows).value)
  {
    match ScanRequest(tx, index, interval, order, maxRows)
    case None => Ok(([], End))
    case Some(request) =>
      if index.Virtual? then tx.virtualIndexRange(request, index.indexName, version)
      else if !tx.TableNumberExists(index.tabletIndex.table) then Err(TableNotFound(index.tabletIndex.table))
      else tx.indexRange(request)
  }
}
