/**
 * The part of the SQL query AST that the query builders construct: columns,
 * comparisons, condition trees, selects, row-number windows and unions.
 * Rendering to SQL text is not modelled; the datatypes record the shape.
 */
module Sql {
  import opened Wrappers
  import opened Prisma

  /** The fixed aliases the related-records builders use. */
  datatype Alias =
    | BaseTableAlias
    | RowNumberAlias
    | RowNumberTableAlias
    | RelatedModelAlias
    | ParentModelAlias

  /** A table or column name: an identifier or one of the fixed aliases. */
  datatype Name = Ident(ident: string) | AliasName(alias: Alias)

  datatype Column = Column(table: Option<Name>, name: Name)

  datatype Compare =
    | ColumnEquals(column: Column, value: PrismaValue)
    | InSelection(column: Column, values: seq<PrismaValue>)
    | Between(column: Column, low: int, high: int)

  /**
   * Condition trees.  `and` and `or` build binary nodes; `NoCondition` is the
   * absent condition, which every row satisfies.
   */
  datatype ConditionTree =
    | NoCondition
    | Single(compare: Compare)
    | And(left: ConditionTree, right: ConditionTree)
    | Or(left: ConditionTree, right: ConditionTree)

  /** A row of a result set, keyed by column. */
  type SqlRow = map<Column, PrismaValue>

  /**
   * Whether a row satisfies one comparison, with two-valued equality: a
   * `Null` value equals a `Null` column, unlike SQL's `=`.
   */
  predicate EvalCompare(c: Compare, row: SqlRow) {
    match c
    case ColumnEquals(col, v) => col in row && row[col] == v
    case InSelection(col, vs) => col in row && row[col] in vs
    case Between(col, lo, hi) => col in row && row[col].Int? && lo <= row[col].i <= hi
  }

  /** Whether a row satisfies a condition tree. */
  predicate Eval(t: ConditionTree, row: SqlRow) {
    match t
    case NoCondition => true
    case Single(c) => EvalCompare(c, row)
    case And(l, r) => Eval(l, row) && Eval(r, row)
    case Or(l, r) => Eval(l, row) || Eval(r, row)
  }

  /** The leaves of the top-level AND chain of a tree, left to right. */
  function Conjuncts(t: ConditionTree): seq<ConditionTree> {
    match t
    case NoCondition => []
    case And(l, r) => Conjuncts(l) + Conjuncts(r)
    case _ => [t]
  }

  /** The leaves of the top-level OR chain of a tree, left to right. */
  function Disjuncts(t: ConditionTree): seq<ConditionTree> {
    match t
    case NoCondition => []
    case Or(l, r) => Disjuncts(l) + Disjuncts(r)
    case _ => [t]
  }

  /** Ordering direction of the primary order-by field, if any. */
  datatype OrderBy = OrderBy(column: Column, descending: bool)

  datatype OrderDirections = OrderDirections(primaryOrderBy: Option<OrderBy>)

  /**
   * The order definitions produced by `Ordering::internal` and
   * `Ordering::aliased_internal`, one entry standing for the whole list;
   * how they expand into columns is not part of this model.
   */
  datatype OrderSpec =
    | Internal(uniqueAliases: seq<Alias>, directions: OrderDirections)
    | AliasedInternal(tableAlias: Alias, secondaryAlias: Alias, uniqueAlias: Alias, directions: OrderDirections)

  /** `ROW_NUMBER() OVER (PARTITION BY ... ORDER BY ...)`. */
  datatype RowNumber = RowNumber(orderBy: seq<OrderSpec>, partitionBy: seq<Column>)

  datatype SelectValue =
    | ColumnValue(column: Column)
    | Asterisk(table: Name)
    | RowNumberValue(window: RowNumber, alias: Alias)

  datatype Source = TableSource(name: Name) | Derived(select: Select, alias: Alias)

  datatype Select = Select(
    source: Source,
    values: seq<SelectValue>,
    condition: ConditionTree,
    orderings: seq<OrderSpec>,
    limit: Option<nat>,
    offset: Option<nat>)

  /** A query is a select or a `UNION ALL` of selects (empty for the default union). */
  datatype Query = SelectQuery(select: Select) | UnionAll(branches: seq<Select>)
}
