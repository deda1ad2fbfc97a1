# Convex backend core: components, user-facing documents, call validation

A Dafny model of three pieces of the Convex backend and the properties they keep.

- **The component tree resolver** (`BootstrapComponentsModel`). Components live in the global `_components` table.
  - The root has no parent. Every other component names its parent and its own name, and the `by_parent_and_name` index finds it.
  - The resolver walks down from the root along a component path, and walks up parent links to rebuild a component's path.
  - It loads components and component definitions, and maps a function path to the module path of the definition that implements it.
- **The user-facing document model** (`UserFacingModel`). This is the layer through which developer code reads and writes documents in one transaction:
  - point and batch reads, where virtual tables are answered by an adapter;
  - guarded `insert`, `patch`, `replace` and `delete`;
  - the read log and one page of an index scan.
- **The function-call validator.** These are the gates a call passes before a function runs:
  1. system modules, which check only the root component and the identity;
  2. backend state;
  3. npm version;
  4. the analyzed function;
  5. visibility, where an internal function looks missing;
  6. function type;
  7. argument size;
  8. the argument validator.

  The validator also covers the HTTP route check, the existence check for scheduled functions, and the protocol form of a validated call.

Modules:

| module | file | form |
|---|---|---|
| `Common` | common.dfy | `Option`, `Result`, least element of a key set, ascending key order, reverse |
| `ComponentTypes` | component_types.dfy | component and definition records, ids, paths |
| `DatabaseTypes` | database_types.dfy | documents, fields and patches, identities, index intervals, errors |
| `Transactions` | transaction.dfy | `class Transaction`: the mutable state of a transaction |
| `Components` | components.dfy | functions for the lookups; methods for the loops of the source |
| `UserFacing` | user_facing.dfy | methods over the transaction; functions for what they compute |
| `Validation` | validation.dfy | pure functions and lemmas |

The transaction is a class whose fields the user-facing methods update:
- table mapping;
- documents;
- creation-time counter;
- read log and write log.

Its invariant `Valid()` is established by the constructor. `Patch`, `Replace` and `Delete` preserve it unconditionally. `Insert` preserves it when the table number allocated for a new table is not already in use (`NumberAvailable`). It requires three things:
- table numbers are distinct;
- physical table numbers are not virtual;
- every stored document sits under its own id, in a mapped table, with a creation time below the counter.

The virtual-table adapter and the index scan are collaborators. They are represented by function-valued constants of the transaction: `virtualGet`, `virtualIndexRange` and `indexRange`. The store's fetch failures are not part of the transaction: the read operations (`GetBatch`, `GetWithTs`, `Get` and the helpers they use) take a parameter `failing`, the set of ids whose fetch fails.

Two virtual-table views are kept apart, as in the source:
- the namespace's virtual table mapping, from table numbers to names, which batch reads consult;
- the set of names the virtual system mapping declares virtual, which `insert` and `record_read_document` consult.

## Model

| member | source | states |
|---|---|---|
| Components.ComponentInParent | crates/database/src/bootstrap_model/components/mod.rs:99-124 | Finds a component iff some row matches the query (parent null, or the parent and the name). The result is the stored row of least id among the matches, as the first row of an ascending index scan. |
| Components.RootComponent | crates/database/src/bootstrap_model/components/mod.rs:126-130 | Finds a component iff some component has type `App`, and what it returns is such a stored row. |
| Components.ComponentInParentIsUnique | crates/database/src/bootstrap_model/components/mod.rs:75-82 | When (parent, name) index keys are unique, the lookup returns exactly the one matching component. |
| Components.ResolveFrom | crates/database/src/bootstrap_model/components/mod.rs:140-148 | The walk over an empty path stays at its start. A successful walk over a non-empty path ends at a stored child whose name is the path's last name. |
| Components.Resolve | crates/database/src/bootstrap_model/components/mod.rs:132-150 | No root gives none. The empty path gives the root. A success over a non-empty path is a stored child named by the last segment. |
| Components.ResolvePath | crates/database/src/bootstrap_model/components/mod.rs:132-150 | The loop that replaces the current component by its child of the next name computes exactly `Resolve`. |
| Components.ResolveFromSnoc | crates/database/src/bootstrap_model/components/mod.rs:140-148 | Walking `path + [name]` is walking `path`, then one child lookup of `name`. |
| Components.PathOf | crates/database/src/bootstrap_model/components/mod.rs:167-194 | The root's path is empty. A missing record on the way up is the only error, and it names an id absent from the table. A child's path ends with its own name. |
| Components.GetComponentPath | crates/database/src/bootstrap_model/components/mod.rs:167-194 | The upward loop, which collects names and then reverses them, computes exactly `PathOf`. |
| Components.PathOfResolve | crates/database/src/bootstrap_model/components/mod.rs:132-194 | Walking up from the component a path resolves to gives back that path. |
| Components.ResolvePathOf | crates/database/src/bootstrap_model/components/mod.rs:132-194 | With unique index keys, resolving the path of a stored component finds that same component. |
| Components.OneLevelTreeRoundTrip | crates/database/src/bootstrap_model/components/mod.rs:403-413 | The module's own test tree: the root and its child `subcomponent_child` resolve to each other in both directions. |
| Components.ComponentDefinition | crates/database/src/bootstrap_model/components/mod.rs:196-218 | The root maps to the root definition without a lookup. A child maps to its record's `definition_id`, or to the missing-component error iff no record exists. |
| Components.LoadComponent | crates/database/src/bootstrap_model/components/mod.rs:220-240 | The root is loaded through the index. A child is loaded iff its record exists, and the result is that record. |
| Components.LoadDefinition | crates/database/src/bootstrap_model/components/mod.rs:242-268 | The root definition without a root component is the missing-root error. With a root, it succeeds iff the root component's `definition_id` is stored. A child definition succeeds iff its id is stored. Every other failure is the missing-definition error, and a success is the stored definition under that id. |
| Components.LoadDefinitionOfComponent | crates/database/src/bootstrap_model/components/mod.rs:196-268 | For the root component, loading its definition by record or via the root definition gives the same result. |
| Components.LoadAllComponents | crates/database/src/bootstrap_model/components/mod.rs:152-165 | One parsed row per stored component: every component is present, and the rows are in strictly ascending id order. |
| Components.LoadAllDefinitions | crates/database/src/bootstrap_model/components/mod.rs:270-288 | Succeeds iff no two definitions share a path; the only error is the duplicate path. On success it maps each path to the definition stored with that path, and every definition appears. |
| Components.FunctionPathToModule | crates/database/src/bootstrap_model/components/mod.rs:290-307 | The module path is kept. The root path maps to the root definition. A non-root path succeeds iff its component resolves, and fails only with component-not-found. |
| Components.FunctionPathToModuleAgreesWithComponentDefinition | crates/database/src/bootstrap_model/components/mod.rs:290-307 | Below the root, the definition found is the one `component_definition` gives for the resolved component. |
| DatabaseTypes.CheckUserSize | crates/database/src/bootstrap_model/user_facing.rs:190 | A size passes the user ceiling iff it is at most the limit. |
| DatabaseTypes.SetField | crates/database/src/bootstrap_model/user_facing.rs:229-230 | After one update, the field has the new value and every other field keeps its value. |
| DatabaseTypes.ApplyPatchKeepsUntouched | crates/database/src/bootstrap_model/user_facing.rs:229-230 | A field that the patch does not name keeps its value. |
| DatabaseTypes.ApplyPatchLastWins | crates/database/src/bootstrap_model/user_facing.rs:229-230 | A patched field takes the value of the last update naming it, so conflicting fields are overwritten. |
| UserFacing.Fetch | crates/database/src/bootstrap_model/user_facing.rs:162 | A store fetch fails iff the id's fetch fails. A hit is the stored document and a miss means no document has that id. |
| UserFacing.VirtualRead | crates/database/src/bootstrap_model/user_facing.rs:130-147 | An entry records at most one read, and only for a virtual-table hit: a virtual read of that virtual table. |
| UserFacing.VirtualReadsAreVirtual | crates/database/src/bootstrap_model/user_facing.rs:128-161 | A batch records at most one read per key, and every read it records itself is virtual. |
| UserFacing.ResolveEntry | crates/database/src/bootstrap_model/user_facing.rs:129-157 | Stage 1 for one entry. An id is left for the store iff it is in a physical, non-virtual table; otherwise the answer is the entry's result. The read log grows by the entry's virtual read. |
| UserFacing.ResolveBatch | crates/database/src/bootstrap_model/user_facing.rs:125-161 | Every key is either answered or staged, exactly one of the two. Answers are per-entry results and staged ids are the requested ids. The read log gains the virtual reads in ascending key order. |
| UserFacing.FetchBatch | crates/database/src/bootstrap_model/user_facing.rs:162 | One store result per staged key, and no other keys. |
| UserFacing.MaterializeBatch | crates/database/src/bootstrap_model/user_facing.rs:163-171 | The merged map has exactly the keys of both sides, each with its own value; no key is inserted twice. |
| UserFacing.EntryResultIsRequested | crates/database/src/bootstrap_model/user_facing.rs:162-166 | In a valid transaction, a physical hit is the document under the requested id. |
| UserFacing.GetBatch | crates/database/src/bootstrap_model/user_facing.rs:121-174 | Exactly one result per batch key, each equal to what that entry gives on its own. The read log gains the virtual-table hits in key order. In a valid transaction, every physical hit is the requested document. |
| UserFacing.GetWithTs | crates/database/src/bootstrap_model/user_facing.rs:85-98 | The one-entry batch's result under key 0 is the entry's result, and the read log records its virtual read. In a valid transaction, a physical hit is the requested document. |
| UserFacing.Get | crates/database/src/bootstrap_model/user_facing.rs:73-82 | Same errors and same hits as `get_with_ts`, with the timestamp dropped. |
| UserFacing.Insert | crates/database/src/bootstrap_model/user_facing.rs:178-227 | The guards come in source order: read-only virtual table, size ceiling, retention, each leaving the transaction unchanged. Then the creation-time counter advances, and a `_` table name fails. The table metadata is written first; an id collision fails. Otherwise the document is stored with the old counter value and logged. `Valid()` is preserved when a newly created table gets an unused number, and then the first document of that table cannot collide. |
| UserFacing.Patch | crates/database/src/bootstrap_model/user_facing.rs:232-255 | The guards come in order: system-table authorization, retention, table, document. The merged document keeps its creation time and is written and logged. The size ceiling is checked afterwards, on the merged document and only for user tables. `Valid()` is preserved. |
| UserFacing.Replace | crates/database/src/bootstrap_model/user_facing.rs:259-278 | The guards come in order: authorization, the size of the new value (user tables only), retention, table, document. The replacement keeps the creation time and is logged. `Valid()` is preserved. |
| UserFacing.Delete | crates/database/src/bootstrap_model/user_facing.rs:283-294 | The guards come in order: authorization, retention, table, document. The document is removed and logged, and the old document is returned. `Valid()` is preserved. |
| UserFacing.RecordReadDocument | crates/database/src/bootstrap_model/user_facing.rs:296-311 | Appends one read of the document's size, marked virtual iff the table is a virtual table. |
| UserFacing.ScanRequest | crates/database/src/bootstrap_model/user_facing.rs:327-353 | No request iff the interval is empty or the index is missing. Otherwise the page size is the smaller of the requested rows and the page limit, and the interval, order and index are kept. |
| UserFacing.IndexRange | crates/database/src/bootstrap_model/user_facing.rs:316-380 | An empty interval or a missing index gives an empty page at the end. A virtual index goes to the adapter and a physical index to the index, both with the capped request. A physical index of an unmapped table fails. |
| Validation.FirstNamed | crates/isolate/src/environment/helpers/validation.rs:264 | Gives the index of the first analyzed function of the name, or none iff no function has it. |
| Validation.AnalyzedFunctionAt | crates/isolate/src/environment/helpers/validation.rs:264 | A found function has the requested name, in an analyzed module at the component's module path. |
| Validation.MissingOrInternalError | crates/isolate/src/environment/helpers/validation.rs:126-132 | The not-found message exists iff the path is in the root component. Otherwise the result is an internal error. |
| Validation.UdfVersion | crates/isolate/src/environment/helpers/validation.rs:134-168 | Succeeds iff a config exists and is newer than the unsupported threshold, with that version. With neither a config nor an analyzed function, the result is the missing error. Otherwise it is the unsupported-version error. |
| Validation.ValidatePathAndArgs | crates/isolate/src/environment/helpers/validation.rs:215-329 | A system path is checked only for root and identity: outside the root component it is an internal error, and an identity that is neither admin nor system gets the unauthorized error. A validated system call gets no npm version. Any other call succeeds iff every gate passes (`CallAdmitted`), keeping its path and arguments, with the configured npm version. |
| Validation.VersionGateDecides | crates/isolate/src/environment/helpers/validation.rs:258-261 | When the npm-version gate fails, its outcome is the call's outcome, in either layer, whatever the function and the arguments. |
| Validation.MissingFunctionGate | crates/isolate/src/environment/helpers/validation.rs:263-268 | A function that analysis did not find gives the missing-function outcome. |
| Validation.NoVisibilityGate | crates/isolate/src/environment/helpers/validation.rs:283-288 | A function without a visibility, called by a non-admin under public-only, is an internal error: the no-visibility error in the root component, the non-root error in any other component (the message names the path as a root path). |
| Validation.WrongUdfTypeGate | crates/isolate/src/environment/helpers/validation.rs:292-300 | A visible function of another type gives the wrong-type error with both types in the root component, and an internal error elsewhere. |
| Validation.ArgsTooLargeGate | crates/isolate/src/environment/helpers/validation.rs:302-309 | Arguments over the limit give the too-large error with the size and the limit in the root component, and an internal error elsewhere. |
| Validation.ArgumentValidatorGate | crates/isolate/src/environment/helpers/validation.rs:311-322 | A validator message for otherwise admitted arguments is the argument-validation error with that message. |
| Validation.BackendStateComesFirst | crates/isolate/src/environment/helpers/validation.rs:244-256 | A paused or disabled backend refuses every non-system call with its own error, whatever else holds. |
| Validation.InternalLooksMissing | crates/isolate/src/environment/helpers/validation.rs:209-214 | Under public-only visibility, a non-admin gets the same outcome for an internal function as for a module that does not exist. |
| Validation.AdminIgnoresVisibility | crates/isolate/src/environment/helpers/validation.rs:270-291 | An admin's outcome does not depend on the allowed visibility. |
| Validation.ArgsAtLimitPass | crates/isolate/src/environment/helpers/validation.rs:302-309 | Arguments exactly at the size limit pass the size gate, and the call succeeds. |
| Validation.ValidateHttpPath | crates/isolate/src/environment/helpers/validation.rs:437-460 | Anything but `http.js` is rejected. A paused or disabled backend fails the route in the outer layer with its own error. A route is validated iff it passes those checks and the npm-version gate, and then it carries the configured version. A failed version check on a running route is returned unchanged, in either layer. |
| Validation.AnyNamed | crates/isolate/src/environment/helpers/validation.rs:105-109 | True iff some analyzed function has the name. |
| Validation.AnyNamedFindsFirstNamed | crates/isolate/src/environment/helpers/validation.rs:105-109 | The name scan agrees with the first-match lookup. |
| Validation.CheckScheduledFunction | crates/isolate/src/environment/helpers/validation.rs:88-121 | A missing module is an error. The check passes iff the module exists and, when analyzed, exports the name. An analyzed module without the export gives the no-export error in the root component, and an internal error elsewhere. |
| Validation.ToProto | crates/isolate/src/environment/helpers/validation.rs:389-404 | A protocol form exists iff the call is in the root component, and it carries both path and arguments. |
| Validation.FromProto | crates/isolate/src/environment/helpers/validation.rs:362-383 | Missing arguments are reported before a missing path, and a decoded call is in the root component. |
| Validation.ProtoRoundTrip | crates/isolate/src/environment/helpers/validation.rs:482-487 | A root-component call survives the trip through its protocol form unchanged. |
| Validation.ProtoRoundTripFromMessage | crates/isolate/src/environment/helpers/validation.rs:362-404 | A message with path and arguments survives decoding and re-encoding unchanged. |

## Left out

- Reads that the store and the index record themselves are not modelled. Only the reads recorded by this layer are in the read log: virtual-table hits in `get_batch`, and `record_read_document`.
- UserFacing.RecordReadDocument: the read-set size limits can make recording fail; the model always succeeds.
- UserFacing.GetBatch: store failures are modelled per id, through the `failing` set, so one entry's failure never affects another. The source documents failures across keys, where an item that overflows the transaction limits makes the rest of the batch fail with similar errors; those are not captured.
- UserFacing.ResolveBatch: a failure to record a virtual read, or to name a virtual table, is not modelled, and neither is the error path around it.
- I/O failures of the store are the `failing` parameter. Failures of the table-mapping lookups are not modelled, and neither are failures when a document is parsed or made into its developer form.
- The id generator and the table number that the table model allocates are parameters of `Insert`.
- `insert_table_metadata` is reduced to adding the table to the mapping and logging it. `ResolvedDocument::new` validation is not modelled.
- UserFacing.Insert: overflow of the creation-time counter is not modelled. The counter is an unbounded natural and the increment always succeeds.
- A patch that removes fields is not modelled; a patch only sets fields.
- Document size counts names and values plus one framing byte per field. This is not the system's exact encoded size.
- Tablet ids, table namespaces and the developer form of a document are not modelled. A developer id and its resolved id are the same value here.
- The following are not modelled:
  - metrics and logging;
  - the human-readable sizes in messages;
  - the exact wording of error messages, including `strip()` in the not-found message.
- The bound of five years on the delay of a scheduled function is not modelled. It is floating-point arithmetic on timestamps.
- `parse_udf_args` is not modelled, and neither are JSON and protocol-buffer encoding or version parsing and printing. Arguments are their encoded bytes, and the protocol form carries values unencoded.
- Version order ignores pre-release and build tags.
- The limit on argument size, the page size limit, the user document-size ceiling and the npm deprecation threshold are inputs of the model, not fixed constants. Their values are not part of this model.
- The following facts come from code that is not part of this model. They are assumptions of the model:
  - Full-table scans and index scans yield rows in ascending internal id, ties on the index fields broken by id. This gives `load_all_components` its order and `component_in_parent` its least-id choice. A scan ordered by creation time would reorder the former, and under repeated index keys pick another match.
  - `Identity::is_admin` holds exactly for an instance admin and for an admin acting as a user.
  - `get_analyzed_function` returns the first analyzed function of the requested name.
  - `Transaction::is_system(table_number)` holds when the number names a physical table of the namespace whose name starts with `_`. Virtual-table numbers are therefore never system tables here. As a consequence, a non-admin's patch, replace or delete of a virtual-table id passes the authorization guard and ends in the table-not-found error. If `is_system` also resolved virtual numbers, the source would give the unauthorized error instead.
- `is_system` for function paths (`_system/` prefix) is defined in code that is not part of this model; the prefix rule is an assumption.
- Failures when the backend state or the function configuration is read are not modelled.
- Components.GetComponentPath: the source loops forever if parent links form a cycle. The model requires parents to be created before their children (`ParentsCreatedFirst`), which rules cycles out.
- The component of a function path is a `ComponentPath` in `function_path_to_module` and a `ComponentId` in the validator, as in each source file.
- Instantiation arguments, child instantiations and exports of component definitions are not modelled. `validate_document` and the schema of the system tables are not modelled either.
- Concurrency, async scheduling and the module cache are not modelled.
- The storage tests in `crates/application/src/tests/storage.rs` exercise file storage, which is not part of this model.
