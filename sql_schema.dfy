/**
 * The SQL schema the migration engine computes from a datamodel (the
 * `sql_schema_describer` types): tables with columns, indexes, a primary
 * key and foreign keys, and enums.
 */
module SqlSchema {
  import opened Wrappers

  datatype ColumnTypeFamily = IntColumn | FloatColumn | BooleanColumn | StringColumn | DateTimeColumn | EnumColumn(enumName: string)

  datatype ColumnArity = RequiredColumn | NullableColumn | ListColumn

  datatype ColumnType = ColumnType(family: ColumnTypeFamily, arity: ColumnArity)

  datatype Column = Column(name: string, tpe: ColumnType, default: Option<string>, autoIncrement: bool)

  datatype IndexKind = UniqueKind | NormalKind

  datatype Index = Index(name: string, columns: seq<string>, tpe: IndexKind)

  datatype PrimaryKey = PrimaryKey(columns: seq<string>)

  datatype ForeignKeyAction = Restrict | SetNull | Cascade

  datatype ForeignKey = ForeignKey(
    columns: seq<string>,
    referencedTable: string,
    referencedColumns: seq<string>,
    onDelete: ForeignKeyAction)

  datatype Table = Table(
    name: string,
    columns: seq<Column>,
    indices: seq<Index>,
    primaryKey: Option<PrimaryKey>,
    foreignKeys: seq<ForeignKey>)

  datatype SqlEnum = SqlEnum(name: string, values: seq<string>)

  /** Sequences are never produced from a datamodel; they are kept as names. */
  datatype Schema = Schema(tables: seq<Table>, enums: seq<SqlEnum>, sequences: seq<string>)

  /** The names of a list of columns, in order. */
  function ColumnNames(cols: seq<Column>): (r: seq<string>)
    ensures |r| == |cols|
    ensures forall i :: 0 <= i < |cols| ==> r[i] == cols[i].name
  {
    seq(|cols|, i requires 0 <= i < |cols| => cols[i].name)
  }

  // ---------------------------------------------------------------------------
  // Ordering of names (`str::cmp`: lexicographic by character)
  // ---------------------------------------------------------------------------

  /** `a` sorts before or with `b`. */
  predicate NameLe(a: string, b: string) {
    a == [] || (b != [] && (a[0] < b[0] || (a[0] == b[0] && NameLe(a[1..], b[1..]))))
  }

  lemma {:induction false} NameLeTotal(a: string, b: string)
    ensures NameLe(a, b) || NameLe(b, a)
  {
    if a != [] && b != [] && a[0] == b[0] {
      NameLeTotal(a[1..], b[1..]);
    }
  }

  lemma {:induction false} NameLeTrans(a: string, b: string, c: string)
    requires NameLe(a, b) && NameLe(b, c)
    ensures NameLe(a, c)
  {
    if a != [] && b != [] && c != [] && a[0] == b[0] && b[0] == c[0] {
      NameLeTrans(a[1..], b[1..], c[1..]);
    }
  }

  /** Columns in ascending order of name. */
  predicate SortedByName(cols: seq<Column>) {
    forall i, j :: 0 <= i < j < |cols| ==> NameLe(cols[i].name, cols[j].name)
  }
}
