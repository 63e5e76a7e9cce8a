/**
 * The input both paginated related-records builders start from: the base
 * select over the related model, the parent identifiers, the relation
 * columns, and the query arguments (condition, cursor, ordering, skip and
 * limit, row-number window).  How this input is assembled is not part of
 * this model.
 */
module ManyRelatedRecords {
  import opened Wrappers
  import opened Prisma
  import opened Sql

  datatype SkipAndLimit = SkipAndLimit(skip: nat, limit: Option<nat>)

  datatype BaseQuery = BaseQuery(
    query: Select,
    columns: seq<Column>,
    fromRecordIds: seq<RecordIdentifier>,
    relationColumns: seq<Column>,
    relationColumn: Column,
    condition: ConditionTree,
    cursor: ConditionTree,
    orderDirections: OrderDirections,
    skipAndLimit: SkipAndLimit,
    windowLimits: (int, int))
}
