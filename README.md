# Prisma engines: a Dafny model of the query, write-graph and schema core

This project models, in Dafny, the logic at the heart of several Prisma engine
components and proves properties of it:

- **Introspection name sanitising**: rewriting the model, field, enum and
  index names read from a database into valid Prisma identifiers, and keeping
  the original names as database names (`SanitizeDatamodelNames`).
- **The query document**: the protocol-independent representation of a
  request. This covers removing duplicate nested selections and deciding
  whether a batch of `findOne` reads can be collapsed (`QueryDocument`).
- **Identifier conditions**: turning record identifiers into SQL conditions
  (an `IN` list, or an OR of AND chains), split into chunks of at most
  10000 records (`QueryBuilder`, over the small SQL condition AST in `Sql`).
- **Paginated related records**: the `UNION ALL` builder, which emits one
  select per distinct parent (`UnionAllBuilder`). The `ROW_NUMBER()` builder
  numbers rows per parent and keeps a window (`RowNumberBuilder`).
- **Reading records**: mapping "not found" errors to an absent record,
  choosing the query strategy, and reshaping each returned row into a record
  that carries its parent identifier (`Read`).
- **Nested-write query graphs**: the graph fragments built by the write
  utilities, nested updates and nested upserts (`WriteUtils`, `UpdateNested`,
  `UpsertNested`).
  - The graph itself is a class (`QueryGraph`) whose node and edge lists the
    builders extend in place.
  - The closures attached to parent-id edges are named by a `Transform`
    value. `EdgeRules` interprets them: what each does to its target node
    when the graph runs.
  - The checks on parsed input are in `InputAssertions`.
  - The per-element loops of the nested builders share one specification
    (`Growths`). Each element appends nodes and edges, or stops the loop
    with an error.
- **The SQL schema calculator**: computing the SQL schema of a datamodel.
  - The tables of the models, with their columns, primary keys and indexes
    (`ModelTables`).
  - Column types and migration default values (`SchemaColumns`).
  - Inline relations as foreign keys (`InlineRelations`) and join tables for
    relations stored as tables (`RelationTables`).
  - Sorting every table's columns by name (`SchemaCalculator`).
  - This part uses the datamodel helpers in `DatamodelHelpers`, over the
    datamodel in `Dml` and the SQL schema in `SqlSchema`.

Pure code (the sanitiser's name rewriting, conditions, pagination builders,
schema derivation) is written as functions with contracts and lemmas.

Code that changes state step by step is written as methods with loops and
invariants, each proved against a specification function. This covers:

- the sanitiser's datamodel pass;
- the row reshaping and record collection of `get_related_records`;
- the graph builders;
- the schema calculator's loops and column sort.

## Model

| member | source | states |
|---|---|---|
| SanitizeDatamodelNames.StripLeadingNonLetters | introspection-engine/connectors/sql-introspection-connector/src/sanitize_datamodel_names.rs:76 | the result is a suffix of the name; everything dropped is a non-letter, and the result is empty or starts with a letter (the match of `^[^a-zA-Z]+` is removed) |
| SanitizeDatamodelNames.ReplaceNonIdentChars | introspection-engine/connectors/sql-introspection-connector/src/sanitize_datamodel_names.rs:78 | same length; every character is in `[_a-zA-Z0-9]`, and every character already in that class is kept |
| SanitizeDatamodelNames.SanitizeName | introspection-engine/connectors/sql-introspection-connector/src/sanitize_datamodel_names.rs:80-89 | the new name is always a valid identifier; a database name is returned exactly when the name needed sanitising, and it is the original name; an untouched name is returned as it is |
| SanitizeDatamodelNames.SanitizedIffNoSanitation | introspection-engine/connectors/sql-introspection-connector/src/sanitize_datamodel_names.rs:81 | a name is a valid identifier if and only if neither pattern matches it |
| SanitizeDatamodelNames.SanitizeNameRewrite | introspection-engine/connectors/sql-introspection-connector/src/sanitize_datamodel_names.rs:83-85 | for a name that needs sanitising: the maximal leading run of non-letters is removed, and each remaining character outside `[_a-zA-Z0-9]` becomes `_`, position by position |
| SanitizeDatamodelNames.SanitizeNameIdempotent | introspection-engine/connectors/sql-introspection-connector/src/sanitize_datamodel_names.rs:80-89 | sanitising a sanitised name returns it unchanged and records no database name |
| SanitizeDatamodelNames.SanitizeNames | introspection-engine/connectors/sql-introspection-connector/src/sanitize_datamodel_names.rs:18-22 | a list of names is sanitised element by element, keeping its length and order |
| SanitizeDatamodelNames.FirstIndexOf | introspection-engine/connectors/sql-introspection-connector/src/sanitize_datamodel_names.rs:47 | the index found holds the name and no earlier index does (or no index holds it) |
| SanitizeDatamodelNames.SanitizedDatamodelShape | introspection-engine/connectors/sql-introspection-connector/src/sanitize_datamodel_names.rs:9-62 | model names, field names, relation names, targets and `to_fields`, and index field lists are sanitised in place. A model's database name is its old name iff it needed sanitising. Existing field database names are kept; otherwise the old name is recorded iff it changed. Scalar field types are untouched |
| SanitizeDatamodelNames.SanitizedEnumField | introspection-engine/connectors/sql-introspection-connector/src/sanitize_datamodel_names.rs:25-45 | an enum named `{model}_{field}` is kept when neither name needed sanitising, and is otherwise renamed after the sanitised names with its old name recorded; any other enum name is sanitised on its own |
| SanitizeDatamodelNames.FieldRenamesEntries | introspection-engine/connectors/sql-introspection-connector/src/sanitize_datamodel_names.rs:40-42 | the rename table gains an entry exactly for each enum field that recorded a database name, keyed by that old name; the entry holds the new enum name of the last field to record that key, and an entry no field recorded is kept |
| SanitizeDatamodelNames.ModelRenamesEntries | introspection-engine/connectors/sql-introspection-connector/src/sanitize_datamodel_names.rs:9-62 | after all models, the rename table's keys are exactly the old enum names recorded by some field, each entry carrying its key as database name and the new enum name of the last field, in processing order, to record it |
| SanitizeDatamodelNames.SanitizedEnumDecls | introspection-engine/connectors/sql-introspection-connector/src/sanitize_datamodel_names.rs:64-73 | an enum declaration with a recorded rename takes it, and any other one is sanitised on its own; its database name is its old name or nothing; its values are kept either way |
| SanitizeDatamodelNames.SanitizedEnumDeclFollowsField | introspection-engine/connectors/sql-introspection-connector/src/sanitize_datamodel_names.rs:40-44 | a renamed enum declaration takes the new name recorded by its last recording field, and that field's type is now `Enum` of that same name, with the old name as database name |
| SanitizeDatamodelNames.IdFieldsFollowFieldRenames | introspection-engine/connectors/sql-introspection-connector/src/sanitize_datamodel_names.rs:47-49 | with distinct field and id names, each `id_fields` entry naming a field becomes that field's sanitised name; the others are kept |
| SanitizeDatamodelNames.IdFieldsRenameMatched | introspection-engine/connectors/sql-introspection-connector/src/sanitize_datamodel_names.rs:47-49 | a field named by an `id_fields` entry renames the first entry with that name, keeping the renamed-so-far invariant |
| SanitizeDatamodelNames.IdFieldsRenameUnmatched | introspection-engine/connectors/sql-introspection-connector/src/sanitize_datamodel_names.rs:47-49 | a field named by no `id_fields` entry leaves the entries as they are |
| SanitizeDatamodelNames.SanitizeFieldInPlace | introspection-engine/connectors/sql-introspection-connector/src/sanitize_datamodel_names.rs:13-53 | one field iteration yields the sanitised field, the first matching id entry renamed, and the enum rename recorded |
| SanitizeDatamodelNames.SanitizeFieldTypeInPlace | introspection-engine/connectors/sql-introspection-connector/src/sanitize_datamodel_names.rs:15-45 | relation info is sanitised; an enum type is renamed and the rename recorded as the enum rule says |
| SanitizeDatamodelNames.RenameFirstInPlace | introspection-engine/connectors/sql-introspection-connector/src/sanitize_datamodel_names.rs:47-49 | the first `id_fields` entry equal to the old name becomes the new name; nothing else changes |
| SanitizeDatamodelNames.SanitizeFieldsInPlace | introspection-engine/connectors/sql-introspection-connector/src/sanitize_datamodel_names.rs:12-54 | the field loop yields every field sanitised in order, the final `id_fields` and the rename table |
| SanitizeDatamodelNames.SanitizeIndexesInPlace | introspection-engine/connectors/sql-introspection-connector/src/sanitize_datamodel_names.rs:56-58 | every index keeps its name and kind and has its field list sanitised |
| SanitizeDatamodelNames.SanitizeModelInPlace | introspection-engine/connectors/sql-introspection-connector/src/sanitize_datamodel_names.rs:9-62 | one model iteration yields the sanitised model and the updated rename table |
| SanitizeDatamodelNames.SanitizedFields | introspection-engine/connectors/sql-introspection-connector/src/sanitize_datamodel_names.rs:12-54 | every field is sanitised, in order |
| SanitizeDatamodelNames.SanitizeModelsInPlace | introspection-engine/connectors/sql-introspection-connector/src/sanitize_datamodel_names.rs:9-62 | every model is sanitised in order, and the rename table holds the renames of all models |
| SanitizeDatamodelNames.SanitizeEnumsInPlace | introspection-engine/connectors/sql-introspection-connector/src/sanitize_datamodel_names.rs:64-73 | every enum declaration is sanitised in order, using the rename table |
| SanitizeDatamodelNames.SanitizeDatamodel | introspection-engine/connectors/sql-introspection-connector/src/sanitize_datamodel_names.rs:6-74 | the pass over models then enums produces the sanitised datamodel whose properties the lemmas above state |
| QueryDocument.UniqueByName | query-engine/core/src/query_document/query_document.rs:87 | the kept selections have distinct names, each comes from the input, and together they cover exactly the input's names not yet seen |
| QueryDocument.UniqueByNameKeepsFirstOccurrences | query-engine/core/src/query_document/query_document.rs:83-91 | `unique_by` keeps exactly the first selection of each name, in the original order |
| QueryDocument.UniqueByNameOfDistinct | query-engine/core/src/query_document/query_document.rs:83-91 | selections with distinct names are left unchanged |
| QueryDocument.Dedup | query-engine/core/src/query_document/query_document.rs:83-91 | only the nested selections change; afterwards their names are distinct and the same set of names remains |
| QueryDocument.DedupIdempotent | query-engine/core/src/query_document/query_document.rs:83-91 | de-duplicating twice equals de-duplicating once |
| QueryDocument.DedupSelections | query-engine/core/src/query_document/query_document.rs:52-57 | the read/write kind is kept and the selection is de-duplicated |
| QueryDocument.DedupOperations | query-engine/core/src/query_document/query_document.rs:28-33 | a single-operation document stays single, with distinct nested selection names |
| QueryDocument.IsFindOne | query-engine/core/src/query_document/query_document.rs:42-48 | true exactly for reads whose selection name starts with `findOne`; writes never are |
| QueryDocument.CanOptimize | query-engine/core/src/query_document/query_document.rs:120-127 | an empty batch, or one whose first operation is not find-one, cannot be collapsed |
| QueryDocument.CanOptimizeIff | query-engine/core/src/query_document/query_document.rs:120-127 | a batch can be collapsed iff it is non-empty, its first operation is find-one, and every later one is find-one with the first one's name and nested selections |
| QueryDocument.SingleFindOneOptimizable | query-engine/core/src/query_document/query_document.rs:120-127 | a one-element find-one batch can be collapsed |
| QueryDocument.OptimizeIntoSingleOperation | query-engine/core/src/query_document/query_document.rs:129-135 | a batch that cannot be collapsed yields no operation |
| QueryBuilder.AndChain | query-engine/connectors/sql-query-connector/src/query_builder/mod.rs:45-50 | folding no pairs leaves `NoCondition`, and folding any pairs produces a condition |
| QueryBuilder.Conditions | query-engine/connectors/sql-query-connector/src/query_builder/mod.rs:31-57 | one column gives an `IN` over the first values; several columns and no identifiers give `NoCondition` |
| QueryBuilder.AndChainConjuncts | query-engine/connectors/sql-query-connector/src/query_builder/mod.rs:45-50 | the AND chain lists one equality per zipped column, in column order |
| QueryBuilder.AndChainEval | query-engine/connectors/sql-query-connector/src/query_builder/mod.rs:45-50 | a row satisfies the chain iff it holds every zipped column's value |
| QueryBuilder.IdConditionEval | query-engine/connectors/sql-query-connector/src/query_builder/mod.rs:44-51 | a row satisfies an identifier's condition iff it holds the identifier's values up to the column count |
| QueryBuilder.OrOfIdsDisjuncts | query-engine/connectors/sql-query-connector/src/query_builder/mod.rs:52-55 | the OR lists one condition per identifier, in input order |
| QueryBuilder.OrOfIdsEval | query-engine/connectors/sql-query-connector/src/query_builder/mod.rs:42-55 | a row satisfies a non-empty OR iff it matches some identifier |
| QueryBuilder.ConditionsEval | query-engine/connectors/sql-query-connector/src/query_builder/mod.rs:31-57 | a row satisfies `conditions` iff it matches one of the identifiers. Exception: with several columns an empty list yields a condition every row satisfies; with one column it yields an empty `IN` list |
| QueryBuilder.ConditionsShape | query-engine/connectors/sql-query-connector/src/query_builder/mod.rs:42-55 | with several columns: one AND chain per identifier, each with one equality per zipped column |
| QueryBuilder.Chunks | query-engine/connectors/sql-query-connector/src/query_builder/mod.rs:23 | every chunk is non-empty, holds at most `size` elements, and takes its elements from the input |
| QueryBuilder.ChunksConcat | query-engine/connectors/sql-query-connector/src/query_builder/mod.rs:23 | the chunks concatenated give back the input |
| QueryBuilder.ChunksCount | query-engine/connectors/sql-query-connector/src/query_builder/mod.rs:23 | there are ceil(n / size) chunks and all but the last are full |
| QueryBuilder.ChunkedConditions | query-engine/connectors/sql-query-connector/src/query_builder/mod.rs:11-29 | one query per chunk of at most 10000 identifiers, in order, each built from that chunk's conditions; none for no identifiers |
| UnionAllBuilder.DedupAdjacent | query-engine/connectors/sql-query-connector/src/query_builder/read/many_related_records/union_all.rs:11-16 | no two neighbours are equal, the first element is kept, and no value is lost or invented |
| UnionAllBuilder.DedupAdjacentKeeps | query-engine/connectors/sql-query-connector/src/query_builder/read/many_related_records/union_all.rs:11-16 | `dedup` keeps exactly the elements that differ from their predecessor, in order |
| UnionAllBuilder.DedupAdjacentOfDistinctNeighbours | query-engine/connectors/sql-query-connector/src/query_builder/read/many_related_records/union_all.rs:11-16 | a sequence without equal neighbours is unchanged |
| UnionAllBuilder.KeptFromDistinctNeighbours | query-engine/connectors/sql-query-connector/src/query_builder/read/many_related_records/union_all.rs:11-16 | without equal neighbours, `dedup` keeps every element from any position on |
| UnionAllBuilder.DedupAdjacentIdempotent | query-engine/connectors/sql-query-connector/src/query_builder/read/many_related_records/union_all.rs:11-16 | de-duplicating twice equals once |
| UnionAllBuilder.Paged | query-engine/connectors/sql-query-connector/src/query_builder/read/many_related_records/union_all.rs:21-27 | the offset is the skip, the limit is the requested one if any, and nothing else changes |
| UnionAllBuilder.WithPagination | query-engine/connectors/sql-query-connector/src/query_builder/read/many_related_records/union_all.rs:10-62 | a union with one branch per de-duplicated identifier, in order; no identifiers give the empty union |
| UnionAllBuilder.BranchSemantics | query-engine/connectors/sql-query-connector/src/query_builder/read/many_related_records/union_all.rs:47-53 | a row answers branch i iff it satisfies the condition and the cursor and its relation column holds identifier i's value; every branch carries the skip and limit |
| UnionAllBuilder.BranchConditionEval | query-engine/connectors/sql-query-connector/src/query_builder/read/many_related_records/union_all.rs:47-51 | a branch condition holds iff the base condition and the cursor hold and the relation column equals the id's value |
| UnionAllBuilder.UsesRowNumber | query-engine/connectors/sql-query-connector/src/query_builder/read/many_related_records/union_all.rs:64-66 | the union builder adds no row number |
| RowNumberBuilder.FilteredBase | query-engine/connectors/sql-query-connector/src/query_builder/read/many_related_records/row_number.rs:11-25 | the base select gets the identifier, base and cursor conditions, and gains the primary order-by column exactly when it is not selected already |
| RowNumberBuilder.WithPagination | query-engine/connectors/sql-query-connector/src/query_builder/read/many_related_records/row_number.rs:10-48 | the outer select keeps all columns of the numbered select and filters the row number to the window; the middle select numbers the filtered base |
| RowNumberBuilder.OuterKeepsWindow | query-engine/connectors/sql-query-connector/src/query_builder/read/many_related_records/row_number.rs:34-46 | a row is kept iff its row number lies within the window limits, and numbering restarts per parent |
| RowNumberBuilder.InnerConditionSemantics | query-engine/connectors/sql-query-connector/src/query_builder/read/many_related_records/row_number.rs:13-15 | a base row passes iff it belongs to one of the parents and satisfies the condition and the cursor |
| RowNumberBuilder.UsesRowNumber | query-engine/connectors/sql-query-connector/src/query_builder/read/many_related_records/row_number.rs:50-52 | the row-number builder adds a row number |
| Read.SingleRecordResult | query-engine/connectors/sql-query-connector/src/database/operations/read.rs:12-32 | both not-found errors become an absent record and every other error is passed on unchanged; a row becomes a record labelled with the selected names |
| Read.ChooseStrategy | query-engine/connectors/sql-query-connector/src/database/operations/read.rs:82-118 | joins are skipped iff the relation is inlined in the child and there is no pagination; the paginated builder is used iff paginating |
| Read.Reversed | query-engine/connectors/sql-query-connector/src/database/operations/read.rs:150 | the i-th element is the input's i-th from the end |
| Read.PopField | query-engine/connectors/sql-query-connector/src/database/operations/read.rs:134-144 | fails with `ColumnDoesNotExist` iff the row is shorter than the field's columns; otherwise the trailing values are removed and paired with the columns from the last value back |
| Read.PopLinkingFields | query-engine/connectors/sql-query-connector/src/database/operations/read.rs:133-146 | fails iff the row has fewer values than linking columns; otherwise that many trailing values are removed and paired with the linking columns |
| Read.ReshapeRow | query-engine/connectors/sql-query-connector/src/database/operations/read.rs:124-165 | the row closure computes the reshaped record described by the lemmas below |
| Read.AppendParentValues | query-engine/connectors/sql-query-connector/src/database/operations/read.rs:157-159 | appends the parent identifier's values, in order |
| Read.ReversedPopped | query-engine/connectors/sql-query-connector/src/database/operations/read.rs:148-150 | reversing the pops pairs the last n values, in row order, with the linking columns in reverse |
| Read.ParentPairsValues | query-engine/connectors/sql-query-connector/src/database/operations/read.rs:148-159 | the parent identifier's values are exactly the last n values of the row |
| Read.LinkColumnsPrefix | query-engine/connectors/sql-query-connector/src/database/operations/read.rs:133-146 | the columns of the first i linking fields are a prefix of all linking columns |
| Read.ReshapedFails | query-engine/connectors/sql-query-connector/src/database/operations/read.rs:136-141 | reshaping fails, with `ColumnDoesNotExist`, exactly when the row (without row number) has fewer values than linking columns |
| Read.ReshapedParentId | query-engine/connectors/sql-query-connector/src/database/operations/read.rs:148-162 | the parent identifier holds the trailing values in row order, labelled with the linking columns in reverse |
| Read.ReshapedRecordValues | query-engine/connectors/sql-query-connector/src/database/operations/read.rs:152-160 | the record's values are the row minus the relation-id value just before the parent values, with the parent values at the end |
| Read.RelatedRecords | query-engine/connectors/sql-query-connector/src/database/operations/read.rs:120-171 | the read fails with `ColumnDoesNotExist` iff some row fails; otherwise one record per row in order, labelled with the selected names only |
| WriteUtils.IdFilter | query-engine/core/src/query_graph_builder/write/utils.rs:15-25 | an AND of one equality per identifier pair, in order |
| WriteUtils.IdsFilter | query-engine/core/src/query_graph_builder/write/utils.rs:27-36 | an OR of the identifiers' filters, in order |
| WriteUtils.IdFilterMatches | query-engine/core/src/query_graph_builder/write/utils.rs:15-25 | a record satisfies an identifier's filter iff it holds all its values |
| WriteUtils.IdsFilterMatches | query-engine/core/src/query_graph_builder/write/utils.rs:27-36 | a record satisfies a list's filter iff it holds one of the identifiers |
| WriteUtils.CoerceVec | query-engine/core/src/query_graph_builder/write/utils.rs:40-46 | a list is unpacked, and a map or a scalar becomes a one-element list |
| WriteUtils.NodeIsCreate | query-engine/core/src/query_graph_builder/write/utils.rs:48-53 | true exactly for a create-record write node |
| WriteUtils.InsertFindChildrenByParentNode | query-engine/core/src/query_graph_builder/write/utils.rs:103-144 | exactly one read node is appended, fed by one parent-id edge from the parent; existing nodes and edges are unchanged |
| WriteUtils.UpdateRecordsNodePlaceholder | query-engine/core/src/query_graph_builder/write/utils.rs:151-165 | exactly one update-many node is appended, and no edges |
| WriteUtils.InsertExisting1to1RelatedModelChecks | query-engine/core/src/query_graph_builder/write/utils.rs:200-268 | appends the read, the placeholder update and the `If`, wired by the check edge, the `Then` edge and the disconnect edge |
| WriteUtils.InsertDeletionChecks | query-engine/core/src/query_graph_builder/write/utils.rs:310-362 | nothing is added when no relation requires the model; otherwise an empty node and one failing read per field, chained in order, with the empty node before the child |
| WriteUtils.InsertChecks | query-engine/core/src/query_graph_builder/write/utils.rs:325-346 | the loop appends one read node per field and its two edges |
| WriteUtils.ChainChecks | query-engine/core/src/query_graph_builder/write/utils.rs:349-355 | the fold appends one execution-order edge between consecutive reads |
| WriteUtils.DeletionChecksShape | query-engine/core/src/query_graph_builder/write/utils.rs:310-362 | each read gets the parent's ids and reports to the empty node with a check that fails on any related record; the reads run in order; the empty node runs before the child |
| WriteUtils.InsertNodeReload | query-engine/core/src/query_graph_builder/write/utils.rs:386-425 | reloading is switched off: the parent node is returned |
| EdgeRules.SetRelationParentIds | query-engine/core/src/query_graph_builder/write/utils.rs:133-139 | a related-records read learns the parent ids; any other node is untouched |
| EdgeRules.OneToOneIfCheck | query-engine/core/src/query_graph_builder/write/utils.rs:227-242 | fails with a relation violation iff a child exists and the child side is required; otherwise the `If` holds iff a child exists and the relation is not inlined in the parent |
| EdgeRules.DisconnectExistingChild | query-engine/core/src/query_graph_builder/write/utils.rs:249-265 | fails iff no child id was found; otherwise a write is narrowed to the last child id, and its relation field is set to null |
| EdgeRules.RequireNoRelated | query-engine/core/src/query_graph_builder/write/utils.rs:335-341 | fails with a relation violation iff any related record exists; otherwise the node is unchanged |
| EdgeRules.UpdateByLastParentId | query-engine/core/src/query_graph_builder/write/nested/update_nested.rs:78-91 | fails iff no id was found; otherwise an update-one gets the last id's filter added, and other nodes are unchanged |
| EdgeRules.UpdateByLastParentIdMatches | query-engine/core/src/query_graph_builder/write/nested/update_nested.rs:86-88 | the added filter selects exactly the records holding the last id |
| EdgeRules.UpdateManyByParentIds | query-engine/core/src/query_graph_builder/write/nested/update_nested.rs:134-150 | an update-many's filter becomes its own filter ANDed with the OR of the ids |
| EdgeRules.UpdateManyByParentIdsMatches | query-engine/core/src/query_graph_builder/write/nested/update_nested.rs:145-146 | the new filter selects exactly the records the old one did that hold one of the ids |
| EdgeRules.UpsertIf | query-engine/core/src/query_graph_builder/write/nested/upsert_nested.rs:130-136 | the `If` takes the update branch iff a child was found |
| EdgeRules.UpsertUpdateById | query-engine/core/src/query_graph_builder/write/nested/upsert_nested.rs:145-157 | an update-one is narrowed to `id = last child id`, and fails without one; other nodes are unchanged |
| EdgeRules.ParentUpdateById | query-engine/core/src/query_graph_builder/write/nested/upsert_nested.rs:181-194 | fails without a parent id; otherwise the write is narrowed to the last parent id |
| EdgeRules.InjectFromLastId | query-engine/core/src/query_graph_builder/write/nested/upsert_nested.rs:201-214 | fails without an id; otherwise the write receives the relation field set to the last id's value |
| EdgeRules.ApplyTransform | query-engine/core/src/query_graph_builder/write/utils.rs:131-140 | only the id-popping, one-to-one and deletion checks can fail, and nodes that are not queries or `If` pass through |
| InputAssertions.AsMap | query-engine/core/src/query_graph_builder/write/nested/update_nested.rs:51 | only a map converts; anything else is the conversion error |
| InputAssertions.AssertSize | query-engine/core/src/query_graph_builder/write/nested/update_nested.rs:54 | succeeds iff the map has exactly n entries |
| InputAssertions.AssertNonNull | query-engine/core/src/query_graph_builder/write/nested/update_nested.rs:55 | succeeds iff no entry is null |
| InputAssertions.WhereFilter | query-engine/core/src/query_graph_builder/write/nested/update_nested.rs:51-57 | succeeds iff `where` is a map with exactly one non-null entry; each failure is reported in check order |
| Growths.StepsSnoc | query-engine/core/src/query_graph_builder/write/nested/update_nested.rs:46-96 | after a successful prefix, one more element appends its own step, numbered after the nodes already there |
| Growths.StepsStopAtFirstError | query-engine/core/src/query_graph_builder/write/nested/update_nested.rs:46-96 | once an element fails (the `?` in the loop), the later elements add nothing and the error is the loop's |
| Growths.StepsPrefix | query-engine/core/src/query_graph_builder/write/nested/update_nested.rs:46-96 | the growth of a prefix of the elements is a prefix of the whole growth, and succeeds when the whole does |
| Growths.StepsOk | query-engine/core/src/query_graph_builder/write/nested/update_nested.rs:46-96 | when an element's success does not depend on the graph, the loop succeeds iff every element does |
| Growths.StepsCount | query-engine/core/src/query_graph_builder/write/nested/update_nested.rs:46-96 | with a fixed size per successful element, a successful loop adds that size times the number of elements |
| Growths.StepsPlacement | query-engine/core/src/query_graph_builder/write/nested/update_nested.rs:46-96 | in a successful loop, element i succeeds right after the elements before it, and its nodes and edges follow theirs |
| Growths.StepsAt | query-engine/core/src/query_graph_builder/write/nested/update_nested.rs:46-96 | with fixed sizes, element i of a successful loop occupies the i-th block of nodes and of edges, numbered from n + k·i |
| UpdateNested.UpdateInput | query-engine/core/src/query_graph_builder/write/nested/update_nested.rs:47-63 | a to-one element is the data with an empty filter; a list element needs a map whose `where` passes the checks and yields the data and the filter; `data` is required only once `where` has passed, as the source unwraps it only then |
| UpdateNested.UpdateInputWhereCheckedFirst | query-engine/core/src/query_graph_builder/write/nested/update_nested.rs:52-58 | a list element `{where: {}}` without `data` is accepted as input and fails the size check of `where` |
| UpdateNested.UpdateStep | query-engine/core/src/query_graph_builder/write/nested/update_nested.rs:46-93 | an element fails exactly when its input is rejected |
| UpdateNested.UpdateStepsOk | query-engine/core/src/query_graph_builder/write/nested/update_nested.rs:46-96 | the nested update succeeds iff every element passes the modelled checks (the infallible calls are listed under Left out) |
| UpdateNested.UpdateStepsLayout | query-engine/core/src/query_graph_builder/write/nested/update_nested.rs:46-96 | on success, element i adds its read (fed by the parent) and then its update (fed by that read), at positions 2i and 2i+1 |
| UpdateNested.UpdateStepFixedSize | query-engine/core/src/query_graph_builder/write/nested/update_nested.rs:46-93 | every successful element adds two nodes and two edges |
| UpdateNested.ConnectNestedUpdate | query-engine/core/src/query_graph_builder/write/nested/update_nested.rs:39-97 | the graph grows by exactly the growth of the elements up to the first error, which is returned |
| UpdateNested.UpdateManyInput | query-engine/core/src/query_graph_builder/write/nested/update_nested.rs:107-114 | succeeds iff the element, its `data` and its `where` are maps |
| UpdateNested.UpdateManyStep | query-engine/core/src/query_graph_builder/write/nested/update_nested.rs:106-153 | an element fails iff its input is rejected, and then adds nothing |
| UpdateNested.UpdateManyStepsOk | query-engine/core/src/query_graph_builder/write/nested/update_nested.rs:106-153 | the nested update-many succeeds iff every element's input converts (the infallible calls are listed under Left out) |
| UpdateNested.UpdateManyStepsLayout | query-engine/core/src/query_graph_builder/write/nested/update_nested.rs:106-153 | on success, element i adds a read and an update-many with the same filter, the update-many fed the ids the read finds |
| UpdateNested.UpdateManyStepFixedSize | query-engine/core/src/query_graph_builder/write/nested/update_nested.rs:106-153 | every successful element adds two nodes and two edges |
| UpdateNested.ConnectNestedUpdateMany | query-engine/core/src/query_graph_builder/write/nested/update_nested.rs:99-156 | the graph grows by exactly the growth of the elements up to the first error, which is returned |
| UpsertNested.UpsertFilter | query-engine/core/src/query_graph_builder/write/nested/upsert_nested.rs:102-111 | the checked `where` filter on a list relation, else the empty filter |
| UpsertNested.UpsertStep | query-engine/core/src/query_graph_builder/write/nested/upsert_nested.rs:96-241 | an element fails exactly when its input is rejected; on success it adds a fixed number of nodes and edges that depends on the relation kind |
| UpsertNested.UpsertBranching | query-engine/core/src/query_graph_builder/write/nested/upsert_nested.rs:123-161 | the `If` is fed by the read and, when the graph runs, chooses `Then` (the update) exactly when the read found a child, and `Else` (the create) otherwise |
| UpsertNested.UpsertUpdateNarrowed | query-engine/core/src/query_graph_builder/write/nested/upsert_nested.rs:140-158 | the update is fed by the read and narrowed to the last found child id; it fails when the read found nothing |
| UpsertNested.UpsertChildLinked | query-engine/core/src/query_graph_builder/write/nested/upsert_nested.rs:164-239 | a created child is tied to the parent by a connect (many-to-many), by a parent update fed by the parent and by the create (inlined in the parent), or by injecting the parent id into the create (inlined in the child) |
| UpsertNested.UpsertStepsOk | query-engine/core/src/query_graph_builder/write/nested/upsert_nested.rs:96-241 | the nested upsert succeeds iff every element passes the modelled checks (the infallible calls are listed under Left out) |
| UpsertNested.UpsertStepsCount | query-engine/core/src/query_graph_builder/write/nested/upsert_nested.rs:96-241 | on success, the graph grows by the per-element node and edge counts times the element count |
| UpsertNested.UpsertElementPlacement | query-engine/core/src/query_graph_builder/write/nested/upsert_nested.rs:96-241 | on success, element i succeeded, and its nodes and edges are exactly those of its own step, numbered from n + k·i, in the i-th block of the fixed per-element size |
| UpsertNested.ConnectCreatedChild | query-engine/core/src/query_graph_builder/write/nested/upsert_nested.rs:163-240 | many-to-many adds a connect node. Inlined in the parent adds a parent update fed by the parent and by the create. Inlined in the child adds an edge injecting the parent id into the create |
| UpsertNested.ConnectUpsertIf | query-engine/core/src/query_graph_builder/write/nested/upsert_nested.rs:123-240 | adds the `If` node after the read, create and update, its four edges, and the relation-specific tail, and nothing else |
| UpsertNested.ConnectNestedUpsertElement | query-engine/core/src/query_graph_builder/write/nested/upsert_nested.rs:97-240 | one element grows the graph by exactly its step, and returns the step's error |
| UpsertNested.ConnectNestedUpsert | query-engine/core/src/query_graph_builder/write/nested/upsert_nested.rs:87-244 | the graph grows by exactly the growth of the elements up to the first error, which is returned |
| DatamodelHelpers.ModelDbName | migration-engine/connectors/sql-migration-connector/src/sql_schema_calculator/datamodel_helpers.rs:26-32 | the recorded database name if any, else the model name |
| Dml.FindEnum | migration-engine/connectors/sql-migration-connector/src/sql_schema_calculator/datamodel_helpers.rs:109 | the first enum of the datamodel with that name; nothing iff no enum has it |
| Dml.FindEnumIn | migration-engine/connectors/sql-migration-connector/src/sql_schema_calculator.rs:452-454 | the first enum of the list with that name; nothing iff no enum has it |
| DatamodelHelpers.FieldDbName | migration-engine/connectors/sql-migration-connector/src/sql_schema_calculator.rs:388-390 | the single recorded database name if there is exactly one, else the field name |
| DatamodelHelpers.EnumDbName | migration-engine/connectors/sql-migration-connector/src/sql_schema_calculator/datamodel_helpers.rs:167-169 | the recorded database name if any, else the enum name |
| DatamodelHelpers.FindField | migration-engine/connectors/sql-migration-connector/src/sql_schema_calculator/datamodel_helpers.rs:42-52 | finds a field of that name, the first one; nothing iff no field has the name |
| DatamodelHelpers.IdFields | migration-engine/connectors/sql-migration-connector/src/sql_schema_calculator/datamodel_helpers.rs:66-83 | the `@id` fields, then the fields named by the compound id; exactly the `@id` fields without a compound id |
| DatamodelHelpers.IdMarked | migration-engine/connectors/sql-migration-connector/src/sql_schema_calculator/datamodel_helpers.rs:68-70 | keeps exactly the fields marked `@id`, none added |
| DatamodelHelpers.CompoundIdFields | migration-engine/connectors/sql-migration-connector/src/sql_schema_calculator/datamodel_helpers.rs:72-77 | at most one field per name of the compound id; its order and members are stated by `CompoundIdFieldsConcat` and `CompoundIdFieldsMembers` |
| DatamodelHelpers.IdMarkedConcat | migration-engine/connectors/sql-migration-connector/src/sql_schema_calculator/datamodel_helpers.rs:68-70 | the `@id` filter keeps field order across concatenation |
| DatamodelHelpers.CompoundIdFieldsConcat | migration-engine/connectors/sql-migration-connector/src/sql_schema_calculator/datamodel_helpers.rs:72-77 | the compound id's fields follow the order of its names |
| DatamodelHelpers.CompoundIdFieldsMembers | migration-engine/connectors/sql-migration-connector/src/sql_schema_calculator/datamodel_helpers.rs:72-77 | the compound id yields only fields of the model named in it, and every name that resolves contributes its field |
| DatamodelHelpers.FieldTypeRef | migration-engine/connectors/sql-migration-connector/src/sql_schema_calculator/datamodel_helpers.rs:105-114 | an enum field refers to its enum, a scalar to its scalar type, anything else to `Other` |
| DatamodelHelpers.AsEnum | migration-engine/connectors/sql-migration-connector/src/sql_schema_calculator/datamodel_helpers.rs:144-149 | the enum iff the type refers to one |
| DatamodelHelpers.WalkFieldsAt | migration-engine/connectors/sql-migration-connector/src/sql_schema_calculator/datamodel_helpers.rs:10-18 | the walk visits field j of model i at position (fields of earlier models) + j |
| DatamodelHelpers.WalkFields | migration-engine/connectors/sql-migration-connector/src/sql_schema_calculator/datamodel_helpers.rs:10-18 | one entry per field of every model, each a field of its paired model, which is a model of the datamodel |
| SchemaColumns.ColumnArityOf | migration-engine/connectors/sql-migration-connector/src/sql_schema_calculator.rs:490-496 | required is required, list is list, optional is nullable |
| SchemaColumns.ScalarTypeForField | migration-engine/connectors/sql-migration-connector/src/sql_schema_calculator.rs:479-488 | a scalar field's own type; an enum field is a string |
| SchemaColumns.ColumnTypeForScalar | migration-engine/connectors/sql-migration-connector/src/sql_schema_calculator.rs:498-507 | each scalar type maps to its column family at the given arity |
| SchemaColumns.ColumnTypeOf | migration-engine/connectors/sql-migration-connector/src/sql_schema_calculator.rs:475-477 | the field's scalar family at the field's arity |
| SchemaColumns.EnumColumnType | migration-engine/connectors/sql-migration-connector/src/sql_schema_calculator.rs:465-473 | a native enum column on Postgres and MySQL, else the plain column type, at the field's arity |
| SchemaColumns.NatTextRoundTrip | migration-engine/connectors/sql-migration-connector/src/sql_schema_calculator.rs:418 | the decimal text of a natural number is all digits and reads back as that number |
| SchemaColumns.IntTextRoundTrip | migration-engine/connectors/sql-migration-connector/src/sql_schema_calculator.rs:418 | the text of any integer default reads back as that integer |
| SchemaColumns.NonNegativeTextRoundTrip | migration-engine/connectors/sql-migration-connector/src/sql_schema_calculator.rs:418 | the decimal text of a non-negative integer reads back as it |
| SchemaColumns.NegativeTextRoundTrip | migration-engine/connectors/sql-migration-connector/src/sql_schema_calculator.rs:418 | a minus sign before the text of a positive number reads back as its negation |
| SchemaColumns.DefaultMigrationValue | migration-engine/connectors/sql-migration-connector/src/sql_schema_calculator.rs:439-463 | false, 0, 0.0, the empty string, 0, the epoch, or the enum's first value, by type |
| SchemaColumns.MigrationText | migration-engine/connectors/sql-migration-connector/src/sql_schema_calculator.rs:410-429 | the text of each value kind; integer text reads back as the integer, and date-time text has its ` UTC` suffix cut |
| SchemaColumns.MigrationValueNew | migration-engine/connectors/sql-migration-connector/src/sql_schema_calculator.rs:399-436 | no default iff the field is an id or has no default and is not required. Otherwise it is the text of the given literal, or of the type default for expressions and missing required defaults |
| SchemaColumns.RequiredIntDefaultsToZero | migration-engine/connectors/sql-migration-connector/src/sql_schema_calculator.rs:406 | a required, non-id `Int` field without default migrates with `0` |
| SchemaColumns.RequiredEnumDefaultsToFirstValue | migration-engine/connectors/sql-migration-connector/src/sql_schema_calculator.rs:451-460 | a required, non-id enum field without default migrates with the enum's first value |
| SchemaColumns.RequiredDateTimeDefaultsToEpoch | migration-engine/connectors/sql-migration-connector/src/sql_schema_calculator.rs:423-427 | a required, non-id date-time field without default migrates with `1970-01-01 00:00:00` |
| ModelTables.ModelColumn | migration-engine/connectors/sql-migration-connector/src/sql_schema_calculator.rs:66-100 | the column is named after the field, at its arity, typed by scalar or enum, with the migration default; it is auto-increment iff a scalar has an auto-increment default |
| ModelTables.ModelColumns | migration-engine/connectors/sql-migration-connector/src/sql_schema_calculator.rs:66-100 | one column per scalar or enum field, in field order |
| ModelTables.UniqueFields | migration-engine/connectors/sql-migration-connector/src/sql_schema_calculator.rs:531-534 | exactly the `@unique` fields, in field order |
| ModelTables.SingleFieldIndex | migration-engine/connectors/sql-migration-connector/src/sql_schema_calculator.rs:107-117 | a unique index `{model}.{field}` over the field's column |
| ModelTables.CompoundIndex | migration-engine/connectors/sql-migration-connector/src/sql_schema_calculator.rs:119-143 | the directive's columns by database name, its explicit name or `{model}.{col_col}`, unique iff `@@unique` |
| ModelTables.ModelTableOf | migration-engine/connectors/sql-migration-connector/src/sql_schema_calculator.rs:62-159 | named after the model, with its columns, the id fields as primary key, single then directive indexes, and no foreign keys |
| ModelTables.CalculateModelTables | migration-engine/connectors/sql-migration-connector/src/sql_schema_calculator.rs:62-159 | one table per model, in model order |
| ModelTables.CalculateEnums | migration-engine/connectors/sql-migration-connector/src/sql_schema_calculator.rs:49-60 | one SQL enum per enum, under its database name, with its values |
| ModelTables.PrimaryKeyColumns | migration-engine/connectors/sql-migration-connector/src/sql_schema_calculator.rs:102-105 | the key lists the `@id` columns, then the compound id's columns |
| ModelTables.ColumnPerScalarField | migration-engine/connectors/sql-migration-connector/src/sql_schema_calculator.rs:66-100 | every scalar or enum field has its column in the table |
| ModelTables.ColumnFromScalarField | migration-engine/connectors/sql-migration-connector/src/sql_schema_calculator.rs:66-100 | every column comes from a scalar or enum field |
| ModelTables.UniqueFieldHasIndex | migration-engine/connectors/sql-migration-connector/src/sql_schema_calculator.rs:107-117 | every `@unique` field has its unique index |
| InlineRelations.Sides | migration-engine/connectors/sql-migration-connector/src/sql_schema_calculator.rs:172-176 | the table's model first, the related model second |
| InlineRelations.FieldByDbName | migration-engine/connectors/sql-migration-connector/src/sql_schema_calculator.rs:178 | a field with that column name; nothing iff none has it |
| InlineRelations.ReferencedFields | migration-engine/connectors/sql-migration-connector/src/sql_schema_calculator.rs:180-202 | the related model's id fields when none are named; otherwise the named fields, failing with unknown references iff some name matches no field |
| InlineRelations.InlineColumns | migration-engine/connectors/sql-migration-connector/src/sql_schema_calculator.rs:204-229 | one column per referenced field, named `column` alone or `{column}_{ref}`, typed like the reference at the relation field's arity |
| InlineRelations.OnDeleteFor | migration-engine/connectors/sql-migration-connector/src/sql_schema_calculator.rs:231-243 | restrict iff the relation field is required, else set null |
| InlineRelations.InlineLink | migration-engine/connectors/sql-migration-connector/src/sql_schema_calculator.rs:178-243 | the columns and a foreign key from exactly them to the referenced columns, as many on each side |
| InlineRelations.InlineStep | migration-engine/connectors/sql-migration-connector/src/sql_schema_calculator.rs:166-250 | a relation not inlined here leaves the table alone. One that is appends its columns and foreign key, and for one-to-one an index over exactly those columns |
| InlineRelations.OneToOneIndexAgreesOnSingleReference | migration-engine/connectors/sql-migration-connector/src/sql_schema_calculator.rs:248-250 | with one referenced field the code as written and the corrected index coincide |
| InlineRelations.OneToOneIndexOnTableColumns | migration-engine/connectors/sql-migration-connector/src/sql_schema_calculator.rs:509-517 | the corrected one-to-one index names only columns of the table |
| InlineRelations.OneToOneIndexAsWrittenMissesColumns | migration-engine/connectors/sql-migration-connector/src/sql_schema_calculator.rs:248-250 | as written, with two or more references the index names a column the table does not have |
| InlineRelations.InlineStepsStopAtFirstError | migration-engine/connectors/sql-migration-connector/src/sql_schema_calculator.rs:165-255 | once a relation fails, later relations do not change the outcome |
| InlineRelations.InlineTablesStopAtFirstError | migration-engine/connectors/sql-migration-connector/src/sql_schema_calculator.rs:164-257 | once a model table fails, later ones do not change the outcome |
| InlineRelations.InlineStepsExtend | migration-engine/connectors/sql-migration-connector/src/sql_schema_calculator.rs:165-255 | adding relations keeps the table's name and primary key and only appends columns, indexes and foreign keys |
| InlineRelations.InlineTablesShape | migration-engine/connectors/sql-migration-connector/src/sql_schema_calculator.rs:161-258 | one table per model table, in order, each extending its model's table |
| InlineRelations.AddInlineRelation | migration-engine/connectors/sql-migration-connector/src/sql_schema_calculator.rs:166-251 | the loop body computes the single relation step, with the corrected one-to-one index over the added columns |
| InlineRelations.AddInlineRelationsToTable | migration-engine/connectors/sql-migration-connector/src/sql_schema_calculator.rs:165-255 | the inner loop computes the relations applied in order up to the first error, each with the corrected one-to-one index |
| InlineRelations.AddInlineRelationsToModelTables | migration-engine/connectors/sql-migration-connector/src/sql_schema_calculator.rs:161-258 | the outer loop computes the tables of all models, or the first error, with the corrected one-to-one indexes |
| RelationTables.SingleUniqueField | migration-engine/connectors/sql-migration-connector/src/sql_schema_calculator.rs:319-349 | the first `@id` field, else the first `@unique` field, else nothing |
| RelationTables.UniqueCriteriaAsWritten | migration-engine/connectors/sql-migration-connector/src/sql_schema_calculator.rs:519-529 | the id fields if any, else every `@unique` field |
| RelationTables.UniqueCriteria | migration-engine/connectors/sql-migration-connector/src/sql_schema_calculator.rs:519-529 | the id fields under a compound id, else the single id or unique field; fields of the model |
| RelationTables.RelationTableColumns | migration-engine/connectors/sql-migration-connector/src/sql_schema_calculator.rs:319-349 | one column named after the side, or one `{side}_{id}` column per compound id field |
| RelationTables.RelationColumnsMatchCriteria | migration-engine/connectors/sql-migration-connector/src/sql_schema_calculator.rs:319-349 | the side's columns correspond one for one, by type, to the fields its foreign key references |
| RelationTables.UniqueCriteriaAgree | migration-engine/connectors/sql-migration-connector/src/sql_schema_calculator.rs:519-529 | where the referencing is unambiguous the corrected criteria equal the written ones |
| RelationTables.UniqueCriteriaAsWrittenMismatch | migration-engine/connectors/sql-migration-connector/src/sql_schema_calculator.rs:519-529 | as written, a model without id and with two or more unique fields gets one column but two or more referenced columns |
| RelationTables.SideForeignKey | migration-engine/connectors/sql-migration-connector/src/sql_schema_calculator.rs:268-287 | a cascading foreign key from the side's columns to the model's corrected unique criteria (one field) |
| RelationTables.RelationTableOf | migration-engine/connectors/sql-migration-connector/src/sql_schema_calculator.rs:262-307 | named after the relation, the A then B columns, no primary key, two cascading foreign keys to the corrected unique criteria, and the `_AB_unique` index over all columns |
| RelationTables.RelationTableForeignKeysWellFormed | migration-engine/connectors/sql-migration-connector/src/sql_schema_calculator.rs:268-306 | each foreign key has as many columns as referenced columns, and together they cover the table's columns |
| RelationTables.RelationTablesOf | migration-engine/connectors/sql-migration-connector/src/sql_schema_calculator.rs:260-312 | at most one table per relation, each the join table of a table-stored relation, with the corrected foreign keys |
| RelationTables.RelationTablesComplete | migration-engine/connectors/sql-migration-connector/src/sql_schema_calculator.rs:260-312 | every table-stored relation has its join table |
| RelationTables.CalculateRelationTables | migration-engine/connectors/sql-migration-connector/src/sql_schema_calculator.rs:260-312 | the loop yields the join tables in relation order, with the corrected foreign keys |
| SchemaCalculator.InsertByName | migration-engine/connectors/sql-migration-connector/src/sql_schema_calculator.rs:33-37 | inserting adds exactly that column |
| SchemaCalculator.InsertByNameSorted | migration-engine/connectors/sql-migration-connector/src/sql_schema_calculator.rs:33-37 | inserting into a name-sorted list keeps it sorted |
| SchemaCalculator.SortByName | migration-engine/connectors/sql-migration-connector/src/sql_schema_calculator.rs:33-37 | the result is sorted by name and is a permutation of the columns |
| SchemaCalculator.SortColumnsByName | migration-engine/connectors/sql-migration-connector/src/sql_schema_calculator.rs:32-37 | every table keeps its place and gets its columns sorted by name, as a permutation |
| SchemaCalculator.SchemaTables | migration-engine/connectors/sql-migration-connector/src/sql_schema_calculator.rs:25-30 | fails iff adding the inline relations fails; the tables carry the corrected one-to-one indexes and join-table foreign keys |
| SchemaCalculator.ModelTablesFirst | migration-engine/connectors/sql-migration-connector/src/sql_schema_calculator.rs:24-30 | the model tables come first, one per model with its name and primary key, then exactly the join tables |
| SchemaCalculator.CalculateInternal | migration-engine/connectors/sql-migration-connector/src/sql_schema_calculator.rs:23-47 | fails with the same error iff the tables fail. Otherwise every table is the unsorted table with its columns sorted by name (a permutation), with the enums and no sequences; computed over the corrected one-to-one index and join-table foreign keys |

## Left out

- Database access and async I/O: `conn.find`/`conn.filter` results are inputs. `get_many_records` (read.rs:34-52) and `count_by_model` (read.rs:174-183) only send a query and collect its result, so they are not modelled.
- Rendering SQL: quaint's AST is reduced to the conditions, selects and unions these builders create. `Ordering::internal` and `aliased_internal` are kept as opaque orderings.
- The `without_pagination` builders and `ManyRelatedRecordsBaseQuery::new`: they are defined outside these files. The base query is an input.
- Regular expressions: the two patterns are modelled as the character classes they match. Names are sequences of characters, with no Unicode handling beyond that.
- Integer widths: `i64` values, `usize` counts and the `u32` window limits cast to `i64` are unbounded integers. Nothing modelled does arithmetic that could overflow.
- Floats, decimals and date-times in column defaults and in `PrismaValue`: these are kept as their display text. The column defaults are `0`, `0` and `1970-01-01 00:00:00 UTC` before the ` UTC` suffix is cut. A float argument of the query document is a Dafny `real`, with no rounding to 64 bits.
- `RecordIdentifier::single_value`: modelled as the first value of a non-empty identifier. prisma-models is not part of this model.
- `Field::single_database_name`: taken to be the sole database name when exactly one is recorded. The datamodel crate is not part of this model.
- `migration_value` (sql_schema_calculator.rs:392-397): no operation of the calculator uses it.
- `SqlSchemaCalculator::calculate` (15-21): it only constructs the calculator and delegates to `CalculateInternal`.
- `calculate_relations`: it lives in `DatamodelConverter`, which is not part of this model. The relation holders, including their table and column names, are inputs.
- `sort_unstable_by`: any sort is allowed. `SortByName` promises sorted by name and a permutation. Columns with equal names may come out in any order, as in the source.
- `create_record_node`, `update_record_node` and `connect_records_node`: modelled as the node each creates, carrying its arguments. The nodes and edges they may add themselves are not modelled.
- `extract_filter` and `WriteArgsParser`: the filter is the opaque `Extracted(where, model, unique)`. Write arguments stay the parsed map. `update_datetimes` in the placeholder update is not modelled.
- Errors of `extract_filter` (update_nested.rs:57, 114; upsert_nested.rs:108), `WriteArgsParser::from` (update_nested.rs:115), `update_record_node` (update_nested.rs:67-68; upsert_nested.rs:117-122) and `create_record_node` (upsert_nested.rs:116): the source propagates them with `?`, but the model always builds the filter, the write arguments and the record nodes. Their validation lives outside the modelled files.
- UpdateNested.UpdateStepsOk: an element succeeds iff the modelled checks pass (the conversions and the `where` checks); the errors of the calls above are not part of it.
- UpdateNested.UpdateManyStepsOk: an element succeeds iff its input converts; the errors of `extract_filter` and `WriteArgsParser::from` are not part of it.
- UpsertNested.UpsertStepsOk: an element succeeds iff the modelled checks pass; the errors of `extract_filter`, `create_record_node` and `update_record_node` are not part of it.
- SQL's three-valued logic: `Eval` compares values with two-valued equality, so a `Null` in an identifier matches a `Null` column, where SQL's `col = NULL` is never true. `ConditionsEval`, `IdsFilterMatches`, `BranchConditionEval` and `BranchSemantics` state matching under this reading.
- `read_ids_infallible` (utils.rs:56-74): it only builds a query value and none of the modelled builders call it.
- `fields_requiring_model`: the relation fields are an input of `InsertDeletionChecks`.
- Failures of `create_edge`: the edge's ends are required to be nodes of the graph, which every builder guarantees.
- Panics (`unwrap`, `expect`, `unimplemented!`, `unreachable!`, `todo!`) become preconditions. Examples:
  - a missing `where`/`data`/`create`/`update` key, required only where the source unwraps it: the `data` of a nested update only once its `where` has passed its checks;
  - a missing singular id field;
  - a `Decimal` column;
  - an enum without values;
  - a non-`If` target of the one-to-one check;
  - a batch document passed to `dedup_operations`;
  - a collapsible batch passed to `optimize_into_single_operation`.
- UpsertNested.ConnectNestedUpsert: requires the child's singular id field even for an empty input list. The source only looks it up inside the loop.
- InlineRelations.InlineStep and RelationTables.UniqueCriteria: the rest of the model uses the corrected definitions described under Findings. The behaviour as written is modelled beside them by `InlineStepAsWritten` and `UniqueCriteriaAsWritten`.
- InlineRelations.AddInlineRelation: pushes the corrected one-to-one index over the added columns, not the source's index over `[column]` (sql_schema_calculator.rs:248-250 with 509-517); see Findings.
- InlineRelations.AddInlineRelationsToTable: its result is `InlineSteps`, so it carries the corrected one-to-one index of `AddInlineRelation`.
- InlineRelations.AddInlineRelationsToModelTables: every table it returns carries the corrected one-to-one index of `AddInlineRelation`.
- RelationTables.SideForeignKey: references the single field of the corrected `UniqueCriteria`, not every `@unique` field that `unique_criteria` returns as written (sql_schema_calculator.rs:519-529); see Findings.
- RelationTables.RelationTableOf: its two foreign keys come from `SideForeignKey`, so they reference the corrected unique criteria.
- RelationTables.RelationTablesOf: every join table it builds carries the corrected foreign keys of `SideForeignKey`.
- RelationTables.CalculateRelationTables: its result equals `RelationTablesOf`, so it carries the corrected foreign keys.
- SchemaCalculator.SchemaTables: assembles the model tables and join tables from the corrected one-to-one index and the corrected join-table foreign keys.
- SchemaCalculator.CalculateInternal: computes the schema over the corrected definitions above, not the source's one-to-one index and join-table foreign keys as written.
- The `Multi` arm of `dedup_operations` and the collapsing in `optimize_into_single_operation` are `todo!()` in the source and are not modelled.
- The GraphQL request handler is context only and is not part of this model.

## Findings

| source | as written | input that shows it | evidently intended | confidence | as-written member | corrected member |
|---|---|---|---|---|---|---|
| migration-engine/connectors/sql-migration-connector/src/sql_schema_calculator.rs:248-250 | A one-to-one inline relation gets a unique index on `[column]`, the relation's column name (add_one_to_one_relation_unique_index, lines 509-517). With two or more referenced fields, the table's columns are `{column}_{ref}` and no column is named `column` | a one-to-one relation inlined in `Post` as column `author`, referencing `User` with `@@id([first, last])`: the columns added are `author_first`, `author_last`, and the index is over `author` | the unique index covers the foreign key columns the relation added | not executed | InlineRelations.OneToOneIndexAsWrittenMissesColumns | InlineRelations.OneToOneIndexOnTableColumns |
| migration-engine/connectors/sql-migration-connector/src/sql_schema_calculator.rs:519-529 | `unique_criteria` returns every `@unique` field of a model without id fields. For such a model, `relation_table_columns` (lines 319-349) creates a single join-table column | a many-to-many relation to a model without `@id` that has two `@unique` fields: that side's foreign key has one column and two referenced columns | the foreign key references the same single field the column was made for, the order of precedence the source comment says is duplicated | not executed | RelationTables.UniqueCriteriaAsWrittenMismatch | RelationTables.RelationTableForeignKeysWellFormed |
