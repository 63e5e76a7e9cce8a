/**
 * Values shared by the query engine: scalar values, record identifiers,
 * parsed input values and connector filters.  Only the parts the modelled
 * code inspects are represented.
 */
module Prisma {
  import opened Wrappers

  /**
   * A scalar value as the connectors see it.  Floats and date-times are not
   * interpreted anywhere in the model and are kept as their text.
   */
  datatype PrismaValue =
    | String(s: string)
    | Int(i: int)
    | Float(ftext: string)
    | Boolean(b: bool)
    | DateTime(ttext: string)
    | Enum(enumValue: string)
    | Uuid(utext: string)
    | List(items: seq<PrismaValue>)
    | Null

  /** The database column behind a scalar field. */
  datatype DataSourceField = DataSourceField(name: string)

  /** The values identifying one record, each paired with its column. */
  datatype RecordIdentifier = RecordIdentifier(pairs: seq<(DataSourceField, PrismaValue)>)

  /** `RecordIdentifier::values`: the values in pair order. */
  function Values(id: RecordIdentifier): (r: seq<PrismaValue>)
    ensures |r| == |id.pairs|
    ensures forall i :: 0 <= i < |r| ==> r[i] == id.pairs[i].1
  {
    seq(|id.pairs|, i requires 0 <= i < |id.pairs| => id.pairs[i].1)
  }

  /**
   * `RecordIdentifier::single_value`: the value of a one-column identifier.
   * Taking the first value of a non-empty identifier is the model's reading.
   */
  function SingleValue(id: RecordIdentifier): (r: PrismaValue)
    requires |id.pairs| >= 1
    ensures r == Values(id)[0]
  {
    id.pairs[0].1
  }

  /** Parsed request input: a scalar, a list, or a map of named arguments. */
  datatype ParsedInputValue =
    | SingleInput(value: PrismaValue)
    | ListInput(items: seq<ParsedInputValue>)
    | MapInput(entries: map<string, ParsedInputValue>)

  type ParsedInputMap = map<string, ParsedInputValue>

  /**
   * Connector filters.  `Extracted` stands for the filter that
   * `extract_filter` builds from a `where` argument for a model; that
   * conversion is not part of this model.
   */
  datatype Filter =
    | AndFilter(filters: seq<Filter>)
    | OrFilter(filters: seq<Filter>)
    | ScalarEquals(field: DataSourceField, value: PrismaValue)
    | EmptyFilter
    | Extracted(whereArg: ParsedInputMap, model: string, unique: bool)

  /** A filter built from equalities only, without extracted parts. */
  predicate IsPlain(f: Filter) {
    match f
    case AndFilter(fs) => forall i :: 0 <= i < |fs| ==> IsPlain(fs[i])
    case OrFilter(fs) => forall i :: 0 <= i < |fs| ==> IsPlain(fs[i])
    case Extracted(_, _, _) => false
    case _ => true
  }

  /** A record as the columns it holds and their values. */
  type Row = map<string, PrismaValue>

  /** Whether a record satisfies a plain filter. */
  predicate Matches(f: Filter, row: Row)
    requires IsPlain(f)
  {
    match f
    case AndFilter(fs) => forall i :: 0 <= i < |fs| ==> Matches(fs[i], row)
    case OrFilter(fs) => exists i :: 0 <= i < |fs| && Matches(fs[i], row)
    case ScalarEquals(field, value) => field.name in row && row[field.name] == value
    case EmptyFilter => true
  }
}
