/**
 * The tables the SQL schema calculator derives from the models before
 * relations are added, and the SQL enums it derives from the datamodel's
 * enums.
 */
module ModelTables {
  import opened Wrappers
  import opened Dml
  import opened SqlSchema
  import opened DatamodelHelpers
  import opened SchemaColumns

  /** A model with the table computed for it; relations are added to the table later. */
  datatype ModelTable = ModelTable(model: Model, table: Table)

  // ---------------------------------------------------------------------------
  // Columns
  // ---------------------------------------------------------------------------

  /** What building the column of a scalar or enum field needs not to panic. */
  predicate ColumnReady(dm: Datamodel, f: Field) {
    && (f.fieldType.Base? ==> f.fieldType.scalar != DecimalType)
    && (f.fieldType.Enum? ==> FindEnum(dm, f.fieldType.enumName).Some?)
    && HasMigrationValue(dm, f)
  }

  /** The field's default is generated by the database's auto-increment. */
  predicate IsAutoincrement(f: Field) {
    f.defaultValue == Some(Expression(Autoincrement))
  }

  /** The column of a scalar or enum field. */
  function ModelColumn(dm: Datamodel, family: SqlFamily, f: Field): (r: Column)
    requires IsScalarField(f) && ColumnReady(dm, f)
    ensures r.name == FieldDbName(f)
    ensures r.tpe.arity == ColumnArityOf(f)
    ensures f.fieldType.Base? ==> r.tpe == ColumnTypeOf(f)
    ensures f.fieldType.Enum? ==>
      r.tpe == EnumColumnType(f, family, EnumDbName(FindEnum(dm, f.fieldType.enumName).value))
    ensures r.default == MigrationValueNew(dm, f)
    ensures r.autoIncrement <==> f.fieldType.Base? && IsAutoincrement(f)
  {
    match f.fieldType
    case Base(_) =>
      Column(FieldDbName(f), ColumnTypeOf(f), MigrationValueNew(dm, f), IsAutoincrement(f))
    case Enum(name) =>
      Column(FieldDbName(f), EnumColumnType(f, family, EnumDbName(FindEnum(dm, name).value)), MigrationValueNew(dm, f), false)
  }

  /** The scalar and enum fields, in field order: the fields that get a column. */
  function ScalarFields(fields: seq<Field>): (r: seq<Field>)
    ensures |r| <= |fields|
    ensures forall f :: f in r <==> f in fields && IsScalarField(f)
  {
    if fields == [] then []
    else ScalarFields(fields[..|fields| - 1]) + (if IsScalarField(fields[|fields| - 1]) then [fields[|fields| - 1]] else [])
  }

  /** The columns of a model's scalar and enum fields, in field order; relation fields get none. */
  function ModelColumns(dm: Datamodel, family: SqlFamily, fields: seq<Field>): (r: seq<Column>)
    requires forall f :: f in fields && IsScalarField(f) ==> ColumnReady(dm, f)
    ensures |r| == |ScalarFields(fields)|
    ensures forall i :: 0 <= i < |r| ==> r[i] == ModelColumn(dm, family, ScalarFields(fields)[i])
  {
    var sf := ScalarFields(fields);
    seq(|sf|, i requires 0 <= i < |sf| => ModelColumn(dm, family, sf[i]))
  }

  // ---------------------------------------------------------------------------
  // Indexes
  // ---------------------------------------------------------------------------

  /** `unique_fields`: the fields marked `@unique`, in field order. */
  function UniqueFields(fields: seq<Field>): (r: seq<Field>)
    ensures |r| <= |fields|
    ensures forall f :: f in r <==> f in fields && f.isUnique
  {
    if fields == [] then []
    else UniqueFields(fields[..|fields| - 1]) + (if fields[|fields| - 1].isUnique then [fields[|fields| - 1]] else [])
  }

  /** The unique index of a single `@unique` field. */
  function SingleFieldIndex(m: Model, f: Field): (r: Index)
    ensures r.name == ModelDbName(m) + "." + FieldDbName(f)
    ensures r.columns == [FieldDbName(f)] && r.tpe == UniqueKind
  {
    Index(ModelDbName(m) + "." + FieldDbName(f), [FieldDbName(f)], UniqueKind)
  }

  /** `parts` joined with `_` between consecutive parts. */
  function JoinUnderscore(parts: seq<string>): (r: string)
    ensures parts == [] ==> r == ""
    ensures |parts| == 1 ==> r == parts[0]
  {
    if parts == [] then ""
    else if |parts| == 1 then parts[0]
    else JoinUnderscore(parts[..|parts| - 1]) + "_" + parts[|parts| - 1]
  }

  /** Joining one more part appends a separator and the part. */
  lemma JoinUnderscoreSnoc(parts: seq<string>, p: string)
    requires parts != []
    ensures JoinUnderscore(parts + [p]) == JoinUnderscore(parts) + "_" + p
  {
    assert (parts + [p])[..|parts + [p]| - 1] == parts;
  }

  /** Every name of an index directive names a field of the model. */
  predicate IndexResolves(m: Model, idx: IndexDefinition) {
    forall n :: n in idx.fields ==> FindField(m, n).Some?
  }

  /** The fields named by an index directive, in its order. */
  function ResolveFields(m: Model, names: seq<string>): (r: seq<Field>)
    requires forall n :: n in names ==> FindField(m, n).Some?
    ensures |r| == |names|
    ensures forall i :: 0 <= i < |names| ==> r[i] in m.fields && r[i].name == names[i]
  {
    seq(|names|, i requires 0 <= i < |names| => FindField(m, names[i]).value)
  }

  /**
   * The index of an `@@index` or `@@unique` directive: over the fields' column
   * names; without an explicit name it is named after the table and columns.
   */
  function CompoundIndex(m: Model, idx: IndexDefinition): (r: Index)
    requires IndexResolves(m, idx)
    ensures r.columns == FieldDbNames(ResolveFields(m, idx.fields))
    ensures |r.columns| == |idx.fields|
    ensures idx.name.Some? ==> r.name == idx.name.value
    ensures idx.name.None? ==> r.name == ModelDbName(m) + "." + JoinUnderscore(r.columns)
    ensures r.tpe == UniqueKind <==> idx.tpe == UniqueIndex
  {
    var cols := FieldDbNames(ResolveFields(m, idx.fields));
    Index(
      if idx.name.Some? then idx.name.value else ModelDbName(m) + "." + JoinUnderscore(cols),
      cols,
      if idx.tpe == UniqueIndex then UniqueKind else NormalKind)
  }

  /** The single-field unique indexes, in field order. */
  function SingleFieldIndexes(m: Model): (r: seq<Index>)
    ensures |r| == |UniqueFields(m.fields)|
    ensures forall i :: 0 <= i < |r| ==> r[i] == SingleFieldIndex(m, UniqueFields(m.fields)[i])
  {
    var uf := UniqueFields(m.fields);
    seq(|uf|, i requires 0 <= i < |uf| => SingleFieldIndex(m, uf[i]))
  }

  /** The indexes of the model's index directives, in directive order. */
  function CompoundIndexes(m: Model): (r: seq<Index>)
    requires forall idx :: idx in m.indices ==> IndexResolves(m, idx)
    ensures |r| == |m.indices|
    ensures forall i :: 0 <= i < |r| ==> r[i] == CompoundIndex(m, m.indices[i])
  {
    seq(|m.indices|, i requires 0 <= i < |m.indices| => CompoundIndex(m, m.indices[i]))
  }

  // ---------------------------------------------------------------------------
  // Tables
  // ---------------------------------------------------------------------------

  /** What computing a model's table needs not to panic. */
  predicate ModelTableReady(dm: Datamodel, m: Model) {
    && (forall f :: f in m.fields && IsScalarField(f) ==> ColumnReady(dm, f))
    && (forall idx :: idx in m.indices ==> IndexResolves(m, idx))
  }

  /**
   * The table of one model: named after the model, one column per scalar or
   * enum field, the id fields as primary key, the single-field unique
   * indexes followed by the directive indexes, and no foreign keys.
   */
  function ModelTableOf(dm: Datamodel, family: SqlFamily, m: Model): (r: Table)
    requires ModelTableReady(dm, m)
    ensures r.name == ModelDbName(m)
    ensures r.columns == ModelColumns(dm, family, m.fields)
    ensures r.primaryKey == Some(PrimaryKey(FieldDbNames(IdFields(m))))
    ensures r.foreignKeys == []
    ensures r.indices == SingleFieldIndexes(m) + CompoundIndexes(m)
  {
    Table(ModelDbName(m), ModelColumns(dm, family, m.fields), SingleFieldIndexes(m) + CompoundIndexes(m),
          Some(PrimaryKey(FieldDbNames(IdFields(m)))), [])
  }

  /** `calculate_model_tables`: one table per model, in model order. */
  function CalculateModelTables(dm: Datamodel, family: SqlFamily): (r: seq<ModelTable>)
    requires forall m :: m in dm.models ==> ModelTableReady(dm, m)
    ensures |r| == |dm.models|
    ensures forall i :: 0 <= i < |r| ==> r[i] == ModelTable(dm.models[i], ModelTableOf(dm, family, dm.models[i]))
  {
    seq(|dm.models|, i requires 0 <= i < |dm.models| => ModelTable(dm.models[i], ModelTableOf(dm, family, dm.models[i])))
  }

  /** `calculate_enums`: one SQL enum per datamodel enum, under its database name. */
  function CalculateEnums(dm: Datamodel): (r: seq<SqlEnum>)
    ensures |r| == |dm.enums|
    ensures forall i :: 0 <= i < |r| ==> r[i].name == EnumDbName(dm.enums[i]) && r[i].values == dm.enums[i].values
  {
    seq(|dm.enums|, i requires 0 <= i < |dm.enums| => SqlEnum(EnumDbName(dm.enums[i]), dm.enums[i].values))
  }

  /** The primary key lists the `@id` columns first, then the compound id's columns. */
  lemma PrimaryKeyColumns(dm: Datamodel, family: SqlFamily, m: Model)
    requires ModelTableReady(dm, m)
    ensures ModelTableOf(dm, family, m).primaryKey.value.columns
            == FieldDbNames(IdMarked(m.fields)) + FieldDbNames(CompoundIdFields(m, m.idFields))
  {
    var t := ModelTableOf(dm, family, m);
    assert t.primaryKey == Some(PrimaryKey(FieldDbNames(IdFields(m))));
    FieldDbNamesConcat(IdMarked(m.fields), CompoundIdFields(m, m.idFields));
  }

  /** Every scalar or enum field gets its column. */
  lemma ColumnPerScalarField(dm: Datamodel, family: SqlFamily, m: Model, f: Field)
    requires ModelTableReady(dm, m) && f in m.fields && IsScalarField(f)
    ensures ModelColumn(dm, family, f) in ModelTableOf(dm, family, m).columns
  {
    var sf := ScalarFields(m.fields);
    var i :| 0 <= i < |sf| && sf[i] == f;
    assert ModelTableOf(dm, family, m).columns[i] == ModelColumn(dm, family, f);
  }

  /** Every column comes from a scalar or enum field of the model. */
  lemma ColumnFromScalarField(dm: Datamodel, family: SqlFamily, m: Model, i: nat)
    requires ModelTableReady(dm, m) && i < |ModelTableOf(dm, family, m).columns|
    ensures exists f :: f in m.fields && IsScalarField(f)
                        && ModelTableOf(dm, family, m).columns[i] == ModelColumn(dm, family, f)
  {
    var sf := ScalarFields(m.fields);
    assert sf[i] in sf;
  }

  /** Each `@unique` field has a unique index `"{modelDb}.{fieldDb}"` over its column. */
  lemma UniqueFieldHasIndex(dm: Datamodel, family: SqlFamily, m: Model, f: Field)
    requires ModelTableReady(dm, m) && f in m.fields && f.isUnique
    ensures Index(ModelDbName(m) + "." + FieldDbName(f), [FieldDbName(f)], UniqueKind) in ModelTableOf(dm, family, m).indices
  {
    var uf := UniqueFields(m.fields);
    var i :| 0 <= i < |uf| && uf[i] == f;
    assert ModelTableOf(dm, family, m).indices[i] == SingleFieldIndex(m, f);
  }
}
