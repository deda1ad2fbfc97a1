/** Values, documents, identifiers and identities that the user-facing
    document model works with. */
module DatabaseTypes {
  import opened Common

  type TableName = string
  type TableNumber = nat
  type BatchKey = nat

  /** System (metadata) tables are the ones whose name starts with `_`. */
  predicate IsSystemTableName(name: TableName)
  {
    |name| > 0 && name[0] == '_'
  }

  /** A developer document id: a table number and an internal id. The model uses
      the same id for the resolved form; tablet ids are not modelled. */
  datatype DocumentId = DocumentId(table: TableNumber, internalId: nat)

  /** One top-level field of an object with its encoded value. */
  datatype Field = Field(name: string, value: seq<bv8>)

  /** An object is its sequence of top-level fields. */
  datatype ConvexObject = ConvexObject(fields: seq<Field>)

  /** Encoded size of a sequence of fields: names plus values, one byte of framing each. */
  function FieldsSize(fs: seq<Field>): (n: nat)
    ensures fs != [] ==> n > 0
  {
    if fs == [] then 0 else 1 + |fs[0].name| + |fs[0].value| + FieldsSize(fs[1..])
  }

  function ObjectSize(o: ConvexObject): nat
  {
    FieldsSize(o.fields)
  }

  /** Fields to overwrite or add. Removal of fields by a patch is not modelled. */
  datatype PatchValue = PatchValue(updates: seq<Field>)

  /** The value of the first field called `name`, if any. */
  function FieldNamed(fs: seq<Field>, name: string): Option<seq<bv8>>
  {
    if fs == [] then None
    else if fs[0].name == name then Some(fs[0].value)
    else FieldNamed(fs[1..], name)
  }

  /** Overwrites the field called `f.name`, or adds it at the end. */
  function SetField(fs: seq<Field>, f: Field): (r: seq<Field>)
    ensures FieldNamed(r, f.name) == Some(f.value)
    ensures forall n :: n != f.name ==> FieldNamed(r, n) == FieldNamed(fs, n)
  {
    if fs == [] then [f]
    else if fs[0].name == f.name then [f] + fs[1..]
    else [fs[0]] + SetField(fs[1..], f)
  }

  /** Merges a patch into an object's fields, one update at a time. */
  function ApplyPatch(fs: seq<Field>, updates: seq<Field>): seq<Field>
    decreases |updates|
  {
    if updates == [] then fs
    else ApplyPatch(SetField(fs, updates[0]), updates[1..])
  }

  /** A field the patch does not mention keeps its value. */
  lemma {:induction false} ApplyPatchKeepsUntouched(fs: seq<Field>, updates: seq<Field>, name: string)
    requires forall i :: 0 <= i < |updates| ==> updates[i].name != name
    ensures FieldNamed(ApplyPatch(fs, updates), name) == FieldNamed(fs, name)
    decreases |updates|
  {
    if updates != [] {
      ApplyPatchKeepsUntouched(SetField(fs, updates[0]), updates[1..], name);
    }
  }

  /** A patched field takes the value of the last update that names it. */
  lemma {:induction false} ApplyPatchLastWins(fs: seq<Field>, updates: seq<Field>, i: nat)
    requires i < |updates|
    requires forall j :: i < j < |updates| ==> updates[j].name != updates[i].name
    ensures FieldNamed(ApplyPatch(fs, updates), updates[i].name) == Some(updates[i].value)
    decreases |updates|
  {
    if i == 0 {
      ApplyPatchKeepsUntouched(SetField(fs, updates[0]), updates[1..], updates[0].name);
    } else {
      ApplyPatchLastWins(SetField(fs, updates[0]), updates[1..], i - 1);
    }
  }

  datatype Version = Version(major: nat, minor: nat, patch: nat)

  datatype WriteTimestamp = Committed(ts: nat) | Pending

  datatype Document = Document(id: DocumentId, creationTime: nat, value: ConvexObject)

  function DocumentSize(d: Document): nat
  {
    ObjectSize(d.value)
  }

  /** A stored document with the timestamp of the write that produced it. */
  datatype Versioned = Versioned(document: Document, ts: WriteTimestamp)

  datatype Identity = InstanceAdmin | ActingUser | System | User | Unknown

  /** Admin identities: an instance admin, or an admin acting as a user. */
  predicate IsAdmin(i: Identity)
  {
    i.InstanceAdmin? || i.ActingUser?
  }

  predicate IsSystemIdentity(i: Identity)
  {
    i.System?
  }

  /** Index keys are byte strings compared lexicographically. */
  type IndexKey = seq<bv8>

  predicate KeyLess(a: IndexKey, b: IndexKey)
  {
    if a == [] then b != []
    else if b == [] then false
    else if a[0] != b[0] then a[0] < b[0]
    else KeyLess(a[1..], b[1..])
  }

  /** From `start` (included) up to `end` (excluded), or unbounded above. */
  datatype Interval = Interval(start: IndexKey, end: Option<IndexKey>)

  predicate IntervalIsEmpty(iv: Interval)
  {
    iv.end.Some? && !KeyLess(iv.start, iv.end.value)
  }

  datatype Order = Asc | Desc

  datatype CursorPosition = After(key: IndexKey) | End

  /** An index on a physical table, by table number and index descriptor. */
  datatype TabletIndexName = TabletIndexName(table: TableNumber, descriptor: string)

  datatype StableIndexName =
    | Physical(tabletIndex: TabletIndexName)
    | Virtual(indexName: string, tabletIndex: TabletIndexName)
    | Missing

  datatype RangeRequest = RangeRequest(index: TabletIndexName, interval: Interval, order: Order, maxSize: nat)

  type Page = seq<(IndexKey, Document, WriteTimestamp)>

  datatype Error =
    | ReadOnlyTable(table: TableName)
    | InvalidTableName(table: TableName)
    | DocumentTooLarge(size: nat, limit: nat)
    | RetentionFallingBehind
    | Unauthorized(operation: string)
    | TableNotFound(number: TableNumber)
    | DocumentNotFound(id: DocumentId)
    | DocumentAlreadyExists(id: DocumentId)
    | FetchFailed(id: DocumentId)
    | VirtualTableFailure(reason: string)
    | IndexFailure(reason: string)

  /** The user document-size ceiling: a size exactly at the limit passes. */
  function CheckUserSize(size: nat, limit: nat): (r: Option<Error>)
    ensures r == None <==> size <= limit
  {
    if size > limit then Some(DocumentTooLarge(size, limit)) else None
  }
}
